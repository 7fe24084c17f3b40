/**
Every interleaving of Get, Set, Delete and Clear on the cache of internal/util/lrucache.go.
Get takes the lock twice, once to look the element up and once to move it to the front, and
reads the value after that, with no lock. In between, other calls may run, and they may
overwrite, evict, delete or clear that element. `T` is the identity of a list element.
Module LruCache proves that its methods take these steps.
*/
module PausedGets {
  import opened Wrappers
  import opened Sequences
  import opened Recency

  /**
  `elems` keeps every element ever linked, whether or not it still is in `order`; `stale`
  are those that a Clear took out of the list without disowning them; `paused` callers are
  between their two locks and `reading` callers between the second lock and the read.
  */
  datatype State<!T, V> = State(
    order: seq<T>,
    entries: map<string, T>,
    elems: map<T, Entry<V>>,
    stale: set<T>,
    paused: map<nat, T>,
    reading: map<nat, T>)

  datatype Action<T, V> =
    | Begin(caller: nat, key: string)
    | Move(caller: nat)
    | Read(caller: nat)
    | Put(key: string, value: V, id: T)
    | Remove(key: string)
    | ClearAll

  ghost predicate Busy<T, V>(s: State<T, V>, caller: nat) {
    caller in s.paused || caller in s.reading
  }

  /** The element that a busy caller holds. */
  ghost function Held<T, V>(s: State<T, V>, caller: nat): T
    requires Busy(s, caller)
  {
    if caller in s.paused then s.paused[caller] else s.reading[caller]
  }

  /** The map, the list and its length agree, and callers hold known elements. */
  ghost predicate Agree<T, V>(n: nat, s: State<T, V>) {
    && NoRepeats(s.order)
    && |s.order| <= n
    && (forall id :: id in s.order ==> Indexed(s, id))
    && (forall k :: k in s.entries ==> s.entries[k] in s.order && s.elems[s.entries[k]].key == k)
    && (forall id :: id in s.stale ==> id in s.elems && id !in s.order)
    && CallersKnown(s)
  }

  ghost predicate CallersKnown<T, V>(s: State<T, V>) {
    && (forall c :: c in s.paused ==> s.paused[c] in s.elems)
    && (forall c :: c in s.reading ==> s.reading[c] in s.elems)
  }

  ghost predicate Indexed<T, V>(s: State<T, V>, id: T) {
    id in s.elems && s.elems[id].key in s.entries && s.entries[s.elems[id].key] == id
  }

  /** A new element is created for a new key; a caller that cannot take a step takes none. */
  ghost predicate Enabled<T, V>(s: State<T, V>, a: Action<T, V>) {
    a.Put? && a.key !in s.entries ==> a.id !in s.elems
  }

  /** A move of an element that a Clear left behind, which the list still takes for its own. */
  ghost predicate MovesStale<T, V>(s: State<T, V>, a: Action<T, V>) {
    a.Move? && a.caller in s.paused && s.paused[a.caller] in s.stale
  }

  ghost function Next<T, V>(n: nat, s: State<T, V>, a: Action<T, V>): State<T, V>
    requires Agree(n, s) && Enabled(s, a) && !MovesStale(s, a)
  {
    match a
    case Begin(c, k) =>
      if k in s.entries && !Busy(s, c) then s.(paused := s.paused[c := s.entries[k]]) else s
    case Move(c) =>
      if c !in s.paused then s
      else
        var e := s.paused[c];
        s.(order := Fronted(s.order, e), paused := s.paused - {c}, reading := s.reading[c := e])
    case Read(c) => s.(reading := s.reading - {c})
    case ClearAll => s.(order := [], entries := map[], stale := s.stale + set id | id in s.order)
    case Put(k, v, id) =>
      if k in s.entries then Overwrite(s, k, v)
      else
        var t := Insert(s, k, v, id);
        assert forall x :: x in t.order ==> x == id || Indexed(s, x);
        assert t.order[|t.order| - 1] in t.order;
        Evict(n, t)
    case Remove(k) => if k in s.entries then Unlink(s, k) else s
  }

  ghost function Overwrite<T, V>(s: State<T, V>, k: string, v: V): State<T, V>
    requires k in s.entries
  {
    var e := s.entries[k];
    s.(order := Fronted(s.order, e), elems := s.elems[e := Entry(k, v)])
  }

  ghost function Insert<T, V>(s: State<T, V>, k: string, v: V, id: T): State<T, V> {
    s.(order := [id] + s.order, entries := s.entries[k := id], elems := s.elems[id := Entry(k, v)])
  }

  ghost function Evict<T, V>(n: nat, s: State<T, V>): State<T, V>
    requires s.order != [] && s.order[|s.order| - 1] in s.elems
  {
    var last := s.order[|s.order| - 1];
    if |s.order| <= n then s
    else s.(order := Cut(s.order, |s.order| - 1), entries := s.entries - {s.elems[last].key})
  }

  ghost function Unlink<T, V>(s: State<T, V>, k: string): State<T, V>
    requires k in s.entries
  {
    s.(order := Dropped(s.order, s.entries[k]), entries := s.entries - {k})
  }

  // ---- The recency sequence of a state ----

  ghost predicate Kept<T, V>(s: State<T, V>) {
    forall id :: id in s.order ==> id in s.elems
  }

  ghost function Plain<T, V>(s: State<T, V>): (r: seq<Entry<V>>)
    requires Kept(s)
  {
    seq(|s.order|, i requires 0 <= i < |s.order| => s.elems[s.order[i]])
  }

  lemma PlainDistinct<T, V>(n: nat, s: State<T, V>)
    requires Agree(n, s)
    ensures Kept(s) && Fits(n, Plain(s))
  {
    forall i, j | 0 <= i < j < |s.order| ensures Plain(s)[i].key != Plain(s)[j].key {
      assert Indexed(s, s.order[i]) && Indexed(s, s.order[j]);
    }
  }

  lemma PlainLookup<T, V>(n: nat, s: State<T, V>, k: string)
    requires Agree(n, s)
    ensures Kept(s)
    ensures Lookup(Plain(s), k) ==
            if k in s.entries then Some(s.elems[s.entries[k]].value) else None
  {
    PlainDistinct(n, s);
    LookupFinds(Plain(s), k);
    assert forall i :: 0 <= i < |s.order| ==> Indexed(s, s.order[i]);
    if k in s.entries {
      LookupAt(Plain(s), IndexOf(s.order, s.entries[k]));
    }
  }

  lemma PlainCut<T, V>(n: nat, s: State<T, V>, e: T)
    requires Agree(n, s) && e in s.order
    ensures Kept(s) && Without(Plain(s), s.elems[e].key) == Cut(Plain(s), IndexOf(s.order, e))
  {
    PlainDistinct(n, s);
    WithoutAt(Plain(s), IndexOf(s.order, e));
  }

  /** The serial calls one step amounts to; a Get of a removed element amounts to none. */
  ghost function Serial<T, V>(s: State<T, V>, a: Action<T, V>): seq<Op<V>>
    requires CallersKnown(s)
  {
    match a
    case Begin(c, k) => if k in s.entries || Busy(s, c) then [] else [Get(k)]
    case Move(c) =>
      if c in s.paused && s.paused[c] in s.order then [Get(s.elems[s.paused[c]].key)] else []
    case Read(_) => []
    case Put(k, v, _) => [Set(k, v)]
    case Remove(k) => [Delete(k)]
    case ClearAll => [Clear]
  }

  // ---- Each step keeps the agreement and is its serial calls ----

  lemma FrontedAgrees<T, V>(n: nat, s: State<T, V>, e: T)
    requires Agree(n, s)
    ensures Agree(n, s.(order := Fronted(s.order, e)))
  {
    var s' := s.(order := Fronted(s.order, e));
    FrontedFacts(s.order, e);
    forall id | id in s'.order ensures Indexed(s', id) {
      assert Indexed(s, id);
    }
  }

  lemma FrontedPlain<T, V>(n: nat, s: State<T, V>, e: T)
    requires Agree(n, s) && e in s.order
    ensures var s' := s.(order := Fronted(s.order, e));
            Kept(s') && e in s.elems && Kept(s) &&
            Plain(s') == ToFront(Plain(s), s.elems[e].key, s.elems[e].value)
  {
    var s' := s.(order := Fronted(s.order, e));
    FrontedAgrees(n, s, e);
    PlainDistinct(n, s);
    PlainDistinct(n, s');
    PlainCut(n, s, e);
    PlainFronted(s, s', e);
  }

  lemma PlainFronted<T, V>(s: State<T, V>, s': State<T, V>, e: T)
    requires Kept(s) && Kept(s') && e in s.order
    requires s'.order == Fronted(s.order, e) && s'.elems == s.elems
    ensures Plain(s') == [s.elems[e]] + Cut(Plain(s), IndexOf(s.order, e))
  {
  }

  lemma RunOne<V>(n: nat, s: seq<Entry<V>>, op: Op<V>)
    ensures Run(n, s, [op]) == Step(n, s, op)
  {
    assert [op][..0] == [];
  }

  lemma MoveStep<T, V>(n: nat, s: State<T, V>, c: nat)
    requires Agree(n, s) && c in s.paused && s.paused[c] !in s.stale
    ensures var s' := Next(n, s, Move(c));
            Agree(n, s') && Kept(s) && Kept(s') &&
            Plain(s') == Run(n, Plain(s), Serial(s, Move(c)))
  {
    var e := s.paused[c];
    var t := s.(order := Fronted(s.order, e));
    FrontedAgrees(n, s, e);
    PlainDistinct(n, s);
    PlainDistinct(n, t);
    assert Plain(Next(n, s, Move(c))) == Plain(t);
    if e in s.order {
      FrontedPlain(n, s, e);
      assert Indexed(s, e);
      PlainLookup(n, s, s.elems[e].key);
      RunOne(n, Plain(s), Get(s.elems[e].key));
    }
  }

  lemma RevalueAgrees<T, V>(n: nat, s: State<T, V>, e: T, v: V)
    requires Agree(n, s) && e in s.elems
    ensures Agree(n, s.(elems := s.elems[e := Entry(s.elems[e].key, v)]))
  {
    var s' := s.(elems := s.elems[e := Entry(s.elems[e].key, v)]);
    forall id | id in s'.order ensures Indexed(s', id) {
      assert Indexed(s, id);
    }
  }

  /** Only the front entry changes when the element at the front gets a new value. */
  lemma PlainRevalued<T, V>(s: State<T, V>, e: T, v: V)
    requires Kept(s) && NoRepeats(s.order) && s.order != [] && s.order[0] == e
    ensures var s' := s.(elems := s.elems[e := Entry(s.elems[e].key, v)]);
            Kept(s') && Plain(s') == [Entry(s.elems[e].key, v)] + Plain(s)[1..]
  {
  }

  lemma OverwriteStep<T, V>(n: nat, s: State<T, V>, k: string, v: V)
    requires Agree(n, s) && k in s.entries
    ensures var s' := Overwrite(s, k, v);
            Agree(n, s') && Kept(s) && Kept(s') && Plain(s') == Step(n, Plain(s), Set(k, v))
  {
    var e := s.entries[k];
    var t := s.(order := Fronted(s.order, e));
    FrontedAgrees(n, s, e);
    FrontedPlain(n, s, e);
    RevalueAgrees(n, t, e, v);
    PlainRevalued(t, e, v);
    assert Plain(Overwrite(s, k, v)) == ToFront(Plain(s), k, v);
    assert Lookup(Plain(s), k).Some? by { PlainLookup(n, s, k); }
  }

  lemma InsertStep<T, V>(n: nat, s: State<T, V>, k: string, v: V, id: T)
    requires Agree(n, s) && k !in s.entries && id !in s.elems
    ensures var s' := Insert(s, k, v, id);
            Agree(n + 1, s') && Kept(s) && Kept(s') && Plain(s') == [Entry(k, v)] + Plain(s)
  {
    var s' := Insert(s, k, v, id);
    assert forall i :: 0 <= i < |s.order| ==> Indexed(s, s.order[i]);
    forall x | x in s'.order ensures Indexed(s', x) {
      assert x != id ==> Indexed(s, x);
    }
  }

  lemma EvictAgrees<T, V>(n: nat, s: State<T, V>)
    requires n >= 1 && Agree(n + 1, s) && |s.order| == n + 1
    ensures Indexed(s, s.order[n]) && Agree(n, Evict(n, s))
  {
    var last := s.order[n];
    assert Indexed(s, last);
    CutFacts(s.order, n);
    var s' := Evict(n, s);
    forall x | x in s'.order ensures Indexed(s', x) {
      assert Indexed(s, x) && x != last;
    }
    forall k | k in s'.entries ensures s'.entries[k] in s'.order {
      assert s.entries[k] in s.order;
    }
  }

  lemma EvictStep<T, V>(n: nat, s: State<T, V>)
    requires n >= 1 && Agree(n + 1, s) && s.order != []
    ensures Kept(s)
    ensures var s' := Evict(n, s);
            Agree(n, s') && Kept(s') && Plain(s') == Trim(n, Plain(s))
  {
    PlainDistinct(n + 1, s);
    if |s.order| == n + 1 {
      EvictAgrees(n, s);
      PlainDistinct(n, Evict(n, s));
      assert Cut(s.order, n) == s.order[..n];
    }
  }

  lemma EvictDrops<T, V>(n: nat, s: State<T, V>)
    requires NoRepeats(s.order) && |s.order| > n && s.order[|s.order| - 1] in s.elems
    ensures var last := s.order[|s.order| - 1];
            Evict(n, s) == s.(order := Dropped(s.order, last),
                              entries := s.entries - {s.elems[last].key})
  {
    var k := IndexOf(s.order, s.order[|s.order| - 1]);
    assert k == |s.order| - 1;
  }

  lemma UnlinkAgrees<T, V>(n: nat, s: State<T, V>, k: string)
    requires Agree(n, s) && k in s.entries
    ensures Agree(n, Unlink(s, k))
  {
    var e, s' := s.entries[k], Unlink(s, k);
    DroppedFacts(s.order, e);
    forall x | x in s'.order ensures Indexed(s', x) {
      assert Indexed(s, x);
    }
    forall j | j in s'.entries ensures s'.entries[j] in s'.order && s'.elems[s'.entries[j]].key == j {
      assert s.elems[s.entries[j]].key == j != s.elems[e].key;
    }
  }

  lemma UnlinkStep<T, V>(n: nat, s: State<T, V>, k: string)
    requires Agree(n, s) && k in s.entries
    ensures var s' := Unlink(s, k);
            Agree(n, s') && Kept(s) && Kept(s') && Plain(s') == Without(Plain(s), k)
  {
    UnlinkAgrees(n, s, k);
    PlainDistinct(n, s);
    PlainDistinct(n, Unlink(s, k));
    PlainCut(n, s, s.entries[k]);
    PlainDropped(s, Unlink(s, k), s.entries[k]);
  }

  lemma PlainDropped<T, V>(s: State<T, V>, s': State<T, V>, e: T)
    requires Kept(s) && Kept(s') && e in s.order
    requires s'.order == Dropped(s.order, e) && s'.elems == s.elems
    ensures Plain(s') == Cut(Plain(s), IndexOf(s.order, e))
  {
  }

  lemma PutNew<T, V>(n: nat, s: State<T, V>, k: string, v: V, id: T)
    requires n >= 1 && Agree(n, s) && k !in s.entries && id !in s.elems
    ensures Kept(s) && Insert(s, k, v, id).order[|s.order|] in Insert(s, k, v, id).elems
    ensures var s' := Evict(n, Insert(s, k, v, id));
            Agree(n, s') && Kept(s') && Plain(s') == Trim(n, [Entry(k, v)] + Plain(s))
  {
    InsertStep(n, s, k, v, id);
    EvictStep(n, Insert(s, k, v, id));
  }

  lemma PutStep<T, V>(n: nat, s: State<T, V>, k: string, v: V, id: T)
    requires n >= 1 && Agree(n, s) && (k !in s.entries ==> id !in s.elems)
    ensures var s' := Next(n, s, Put(k, v, id));
            Agree(n, s') && Kept(s) && Kept(s') && Plain(s') == Step(n, Plain(s), Set(k, v))
  {
    if k in s.entries {
      OverwriteStep(n, s, k, v);
    } else {
      PutNew(n, s, k, v, id);
      assert Lookup(Plain(s), k).None? by { PlainLookup(n, s, k); }
    }
  }

  lemma NextStep<T, V>(n: nat, s: State<T, V>, a: Action<T, V>)
    requires n >= 1 && Agree(n, s) && Enabled(s, a) && !MovesStale(s, a)
    ensures var s' := Next(n, s, a);
            Agree(n, s') && Kept(s) && Kept(s') && Plain(s') == Run(n, Plain(s), Serial(s, a))
  {
    PlainDistinct(n, s);
    match a
    case Begin(_, k) =>
      PlainLookup(n, s, k);
      if k in s.entries {
        assert Indexed(s, s.entries[k]);
      } else {
        RunOne(n, Plain(s), Get(k));
      }
    case Move(c) =>
      if c in s.paused {
        MoveStep(n, s, c);
      }
    case Read(_) =>
      assert Plain(Next(n, s, a)) == Plain(s);
    case ClearAll =>
      assert forall id :: id in s.order ==> Indexed(s, id);
      RunOne(n, Plain(s), Clear);
    case Put(k, v, id) =>
      PutStep(n, s, k, v, id);
      RunOne(n, Plain(s), Set(k, v));
    case Remove(k) =>
      PlainLookup(n, s, k);
      RunOne(n, Plain(s), Delete(k));
      if k in s.entries {
        UnlinkStep(n, s, k);
      } else {
        WithoutLength(Plain(s), k);
      }
  }

  /** Callers do not matter to what Set, Delete and Clear do. */
  lemma NextWithCallers<T, V>(n: nat, s: State<T, V>, a: Action<T, V>, paused: map<nat, T>, reading: map<nat, T>)
    requires Agree(n, s) && Enabled(s, a) && (a.Put? || a.Remove? || a.ClearAll?)
    requires CallersKnown(s.(paused := paused, reading := reading))
    ensures var t := s.(paused := paused, reading := reading);
            && Agree(n, t) && Enabled(t, a) && !MovesStale(t, a)
            && Next(n, t, a) == Next(n, s, a).(paused := paused, reading := reading)
  {
    AgreeWithCallers(n, s, paused, reading);
  }

  lemma AgreeWithCallers<T, V>(n: nat, s: State<T, V>, paused: map<nat, T>, reading: map<nat, T>)
    requires Agree(n, s) && CallersKnown(s.(paused := paused, reading := reading))
    ensures Agree(n, s.(paused := paused, reading := reading))
  {
    var t := s.(paused := paused, reading := reading);
    forall id | id in t.order ensures Indexed(t, id) {
      assert Indexed(s, id);
    }
  }

  // ---- Whole runs ----

  /** states[i] is the state before actions[i]; the run starts from an empty cache. */
  ghost predicate Execution<T, V>(n: nat, states: seq<State<T, V>>, actions: seq<Action<T, V>>) {
    && |states| == |actions| + 1
    && states[0] == State([], map[], map[], {}, map[], map[])
    && forall i :: 0 <= i < |actions| ==> Takes(n, states[i], actions[i], states[i + 1])
  }

  ghost predicate Takes<T, V>(n: nat, s: State<T, V>, a: Action<T, V>, s': State<T, V>) {
    Agree(n, s) && Enabled(s, a) && !MovesStale(s, a) && s' == Next(n, s, a)
  }

  /** The calls of an execution in serial order, a Get standing where its second half ran. */
  ghost function SerialTrace<T, V>(n: nat, states: seq<State<T, V>>, actions: seq<Action<T, V>>): seq<Op<V>>
    requires Execution(n, states, actions)
  {
    if actions == [] then []
    else
      var m := |actions| - 1;
      assert Takes(n, states[m], actions[m], states[m + 1]);
      SerialTrace(n, states[..m + 1], actions[..m]) + Serial(states[m], actions[m])
  }

  lemma {:induction false} RunConcat<V>(n: nat, s: seq<Entry<V>>, a: seq<Op<V>>, b: seq<Op<V>>)
    ensures Run(n, s, a + b) == Run(n, Run(n, s, a), b)
  {
    if b == [] {
      assert a + b == a;
    } else {
      assert (a + b)[..|a + b| - 1] == a + b[..|b| - 1];
      RunConcat(n, s, a, b[..|b| - 1]);
    }
  }

  /**
  Any number of Gets may be paused between their two locks. As long as none moves a stale
  element, the map, the list and its length agree in every state, and the recency sequence
  is that of a serial run.
  */
  lemma {:induction false} InterleavingIsSerial<T, V>(n: nat, states: seq<State<T, V>>, actions: seq<Action<T, V>>)
    requires n >= 1 && Execution(n, states, actions)
    ensures var last := states[|actions|];
            Agree(n, last) && Kept(last) &&
            Plain(last) == Run(n, [], SerialTrace(n, states, actions))
  {
    if actions != [] {
      var m := |actions| - 1;
      assert Takes(n, states[m], actions[m], states[m + 1]);
      InterleavingIsSerial(n, states[..m + 1], actions[..m]);
      NextStep(n, states[m], actions[m]);
      RunConcat(n, [], SerialTrace(n, states[..m + 1], actions[..m]), Serial(states[m], actions[m]));
    }
  }

  /** No run gets stuck: whatever is enabled can be taken from the last state. */
  lemma ExecutionExtends<T, V>(n: nat, states: seq<State<T, V>>, actions: seq<Action<T, V>>, a: Action<T, V>)
    requires n >= 1 && Execution(n, states, actions) && Enabled(states[|actions|], a)
    requires !MovesStale(states[|actions|], a)
    ensures Agree(n, states[|actions|])
    ensures Execution(n, states + [Next(n, states[|actions|], a)], actions + [a])
  {
    InterleavingIsSerial(n, states, actions);
    var states', actions' := states + [Next(n, states[|actions|], a)], actions + [a];
    forall i | 0 <= i < |actions'| ensures Takes(n, states'[i], actions'[i], states'[i + 1]) {
      if i < |actions| {
        assert Takes(n, states[i], actions[i], states[i + 1]);
      }
    }
  }

  // ---- The value a Get returns ----

  /** A busy caller keeps its element until it reads, and an unlinked element keeps its value. */
  lemma StepKeeps<T, V>(n: nat, s: State<T, V>, a: Action<T, V>, c: nat)
    requires n >= 1 && Agree(n, s) && Enabled(s, a) && !MovesStale(s, a) && Busy(s, c) && a != Read(c)
    requires c in s.paused ==> c !in s.reading
    ensures var s', e := Next(n, s, a), Held(s, c);
            && Busy(s', c) && Held(s', c) == e && e in s'.elems && (c in s'.paused ==> c !in s'.reading)
            && s'.elems[e].key == s.elems[e].key
            && (e !in s'.order ==> s'.elems[e] == s.elems[e])
  {
    match a
    case Put(k, v, id) =>
      if k in s.entries {
        FrontedFacts(s.order, s.entries[k]);
      } else {
        assert Held(s, c) != id;
      }
    case _ =>
  }

  /** The caller c begins a Get that finds its key. */
  ghost predicate BeginsHit<T, V>(s: State<T, V>, a: Action<T, V>, c: nat, k: string) {
    a == Begin(c, k) && k in s.entries && !Busy(s, c)
  }

  /**
  Until a caller reads, and so when it does, after both of its locks, the value it finds was
  the cache's value for that key at some moment since its Get began, even if the element was
  overwritten, evicted, deleted or cleared meanwhile.
  */
  lemma {:induction false} GetReturnsSeenValue<T, V>(
    n: nat, states: seq<State<T, V>>, actions: seq<Action<T, V>>, i: nat, j: nat, c: nat, k: string)
    requires n >= 1 && Execution(n, states, actions)
    requires i < j <= |actions| && BeginsHit(states[i], actions[i], c, k)
    requires forall m :: i < m < j ==> actions[m] != Read(c)
    ensures Busy(states[j], c) && Held(states[j], c) in states[j].elems
    ensures c in states[j].paused ==> c !in states[j].reading
    ensures var e := states[j].elems[Held(states[j], c)];
            e.key == k && exists m :: i <= m <= j && Shows(n, states[m], e)
    decreases j
  {
    assert Takes(n, states[j - 1], actions[j - 1], states[j]);
    NextStep(n, states[j - 1], actions[j - 1]);
    if j == i + 1 {
      PlainLookup(n, states[i], k);
      assert Shows(n, states[i], states[j].elems[Held(states[j], c)]);
    } else {
      GetReturnsSeenValue(n, states, actions, i, j - 1, c, k);
      StepKeeps(n, states[j - 1], actions[j - 1], c);
      var id := Held(states[j], c);
      if id in states[j].order {
        assert Indexed(states[j], id);
        PlainLookup(n, states[j], k);
        assert Shows(n, states[j], states[j].elems[id]);
      } else {
        var m :| i <= m <= j - 1 && Shows(n, states[m], states[j - 1].elems[id]);
      }
    }
  }

  ghost predicate Shows<T, V>(n: nat, s: State<T, V>, e: Entry<V>) {
    Agree(n, s) && Kept(s) && Lookup(Plain(s), e.key) == Some(e.value)
  }

  // ---- Which Gets find a stale element ----

  /** The m-th action clears the cache while the element is in it. */
  ghost predicate ClearedAt<T, V>(n: nat, states: seq<State<T, V>>, actions: seq<Action<T, V>>, id: T, m: nat)
    requires |states| == |actions| + 1
  {
    m < |actions| && actions[m] == ClearAll && id in states[m].order
  }

  /** An element is stale exactly if some Clear found it in the cache. */
  lemma {:induction false} StaleIff<T, V>(n: nat, states: seq<State<T, V>>, actions: seq<Action<T, V>>, id: T, j: nat)
    requires Execution(n, states, actions) && j <= |actions|
    ensures id in states[j].stale <==> exists m :: 0 <= m < j && ClearedAt(n, states, actions, id, m)
  {
    if j > 0 {
      assert Takes(n, states[j - 1], actions[j - 1], states[j]);
      StaleIff(n, states, actions, id, j - 1);
      assert id in states[j].stale <==> id in states[j - 1].stale || ClearedAt(n, states, actions, id, j - 1);
    }
  }

  /**
  A Get that begins at i and moves at j moves a stale element exactly if some Clear in
  between found in the cache the element that the Get had looked up.
  */
  lemma MovesStaleIff<T, V>(
    n: nat, states: seq<State<T, V>>, actions: seq<Action<T, V>>, i: nat, j: nat, c: nat, k: string)
    requires n >= 1 && Execution(n, states, actions)
    requires i < j <= |actions| && BeginsHit(states[i], actions[i], c, k) && c in states[j].paused
    requires forall m :: i < m < j ==> actions[m] != Read(c)
    ensures MovesStale(states[j], Move(c)) <==>
            exists m :: i < m < j && ClearedAt(n, states, actions, states[i].entries[k], m)
  {
    var id := states[i].entries[k];
    assert Takes(n, states[i], actions[i], states[i + 1]);
    HeldSinceBegin(n, states, actions, i, j, c, k);
    StaleIff(n, states, actions, id, j);
    StaleIff(n, states, actions, id, i);
    if m :| 0 <= m < j && ClearedAt(n, states, actions, id, m) {
      assert id !in states[i].stale;
      assert m > i;
    }
  }

  lemma {:induction false} HeldSinceBegin<T, V>(
    n: nat, states: seq<State<T, V>>, actions: seq<Action<T, V>>, i: nat, j: nat, c: nat, k: string)
    requires n >= 1 && Execution(n, states, actions)
    requires i < j <= |actions| && BeginsHit(states[i], actions[i], c, k)
    requires forall m :: i < m < j ==> actions[m] != Read(c)
    ensures Busy(states[j], c) && Held(states[j], c) == states[i].entries[k]
    ensures c in states[j].paused ==> c !in states[j].reading
    decreases j
  {
    assert Takes(n, states[j - 1], actions[j - 1], states[j]);
    if j > i + 1 {
      HeldSinceBegin(n, states, actions, i, j - 1, c, k);
      StepKeeps(n, states[j - 1], actions[j - 1], c);
    }
  }
}
