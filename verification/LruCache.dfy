/**
The cache of internal/util/lrucache.go: a map from keys to list elements, and a linked
list of those elements in recency order. Each method is one critical section, proved to
take a step of module PausedGets; Get is both of its critical sections in a row. `Replay`
and `Interleave` run whole traces of calls on a cache.
*/
module LruCache {
  import opened Wrappers
  import opened Sequences
  import opened LinkedList
  import Recency
  import PausedGets

  class Cache<V(0)> {
    var entries: map<string, Element<V>>
    const list: List<V>
    const maxEntries: int
    const hasOnEvict: bool
    /** The values passed to onEvict, in order. */
    var onEvictCalls: seq<V>
    /** The elements a caller may hold: all those ever created. */
    ghost var known: set<Element<V>>
    /** Those that a Clear took out of the list without disowning them. */
    ghost var stale: set<Element<V>>

    ghost function View(): PausedGets.State<Element<V>, V>
      reads this`entries, this`known, this`stale, list, known
    {
      PausedGets.State(list.nodes, entries, map e | e in known :: Recency.Entry(e.key, e.value), stale, map[], map[])
    }

    /** The list is well formed and owns exactly the known elements linked into it, and the stale ones. */
    ghost predicate Owned()
      reads this`known, this`stale, list, list.root`next, list.root`prev
      reads list.nodes`next, list.nodes`prev, list.nodes`owner, known`owner, known`next, known`prev
    {
      && maxEntries >= 1
      && list.Valid()
      && list.root !in known
      && (forall e :: e in known ==> (e.owner == list <==> e in list.nodes || e in stale))
      && stale <= known
      && (forall e :: e in known && e in stale ==> e !in list.nodes && Ours(e.prev) && Ours(e.next))
    }

    ghost predicate Ours(e: Element?<V>)
      reads this`known
    {
      e != null && (e in known || e == list.root)
    }

    ghost predicate Valid()
      reads this`entries, this`known, this`stale, list, list.root, list.nodes, known
    {
      Owned() && PausedGets.Agree(maxEntries, View())
    }

    /** The recency sequence. */
    ghost function Contents(): seq<Recency.Entry<V>>
      requires Valid()
      reads this`entries, this`known, this`stale, list, list.root, list.nodes, known
    {
      PausedGets.PlainDistinct(maxEntries, View());
      PausedGets.Plain(View())
    }

    constructor (maxEntries: int, hasOnEvict: bool)
      ensures Valid() && Contents() == [] && fresh(list) && fresh(list.root)
      ensures this.maxEntries == if maxEntries <= 0 then 50 else maxEntries
      ensures this.hasOnEvict == hasOnEvict && onEvictCalls == [] && known == {} && stale == {}
    {
      this.entries := map[];
      this.list := new List();
      this.maxEntries := if maxEntries <= 0 then 50 else maxEntries;
      this.hasOnEvict := hasOnEvict;
      this.onEvictCalls := [];
      this.known, this.stale := {}, {};
    }

    /** The first critical section of Get. */
    method BeginGet(key: string) returns (found: Option<Element<V>>)
      requires Valid()
      ensures found == if key in entries then Some(entries[key]) else None
      ensures found.Some? ==> found.value in known && found.value in list.nodes && found.value.key == key
    {
      if key in entries {
        assert PausedGets.Indexed(View(), entries[key]);
        found := Some(entries[key]);
      } else {
        found := None;
      }
    }

    method MoveElement(elem: Element<V>)
      requires Owned() && elem in known
      modifies list`nodes, list.root`next, list.root`prev, list.nodes`next, list.nodes`prev
      modifies list.Strays(elem)`next, list.Strays(elem)`prev
      ensures Owned() <==> elem !in stale
      ensures Owned() ==> View() == old(View()).(order := Fronted(old(list.nodes), elem))
      ensures !Owned() ==> list.root.next == elem
    {
      FrontedFacts(list.nodes, elem);
      list.MoveToFront(elem);
    }

    /** The second critical section of Get. It breaks the cache exactly if the element is stale. */
    method EndGet(elem: Element<V>)
      requires Valid() && elem in known
      modifies list`nodes, list.root`next, list.root`prev, list.nodes`next, list.nodes`prev
      modifies list.Strays(elem)`next, list.Strays(elem)`prev
      ensures Valid() <==> elem !in stale
      ensures Valid() ==> View() == old(View()).(order := Fronted(old(list.nodes), elem))
      ensures !Valid() ==> list.root.next == elem
    {
      PausedGets.FrontedAgrees(maxEntries, View(), elem);
      MoveElement(elem);
    }

    method GetHit(elem: Element<V>)
      requires Valid() && elem in list.nodes && elem in known
      modifies list`nodes, list.root`next, list.root`prev, list.nodes`next, list.nodes`prev
      ensures Valid()
      ensures Contents() == Recency.ToFront(old(Contents()), elem.key, elem.value)
    {
      PausedGets.FrontedPlain(maxEntries, View(), elem);
      EndGet(elem);
    }

    /** A Get with no call in between. */
    method Get(key: string) returns (r: Option<V>)
      requires Valid()
      modifies list`nodes, list.root`next, list.root`prev, list.nodes`next, list.nodes`prev
      ensures Valid() && r == Recency.Lookup(old(Contents()), key)
      ensures Contents() == Recency.Step(maxEntries, old(Contents()), Recency.Get(key))
    {
      PausedGets.PlainLookup(maxEntries, View(), key);
      var found := BeginGet(key);
      match found
      case None => r := None;
      case Some(elem) =>
        assert Recency.Lookup(Contents(), key) == Some(elem.value);
        GetHit(elem);
        r := Some(elem.value);
    }

    /** What Delete and the eviction loop do to an element: drop it from map and list. */
    method Forget(elem: Element<V>)
      requires Owned() && elem in known && elem in list.nodes
      modifies this`entries, list, list.root, list.nodes
      ensures Owned() && elem.value == old(elem.value)
      ensures View() == old(View()).(order := Dropped(old(list.nodes), elem),
                                     entries := old(entries) - {elem.key})
    {
      DroppedFacts(list.nodes, elem);
      entries := entries - {elem.key};
      list.Remove(elem);
      assert forall e :: e in known ==> e.value == old(e.value);
    }

    /** The body of Set's eviction loop. */
    method EvictOldest()
      requires Owned() && list.nodes != [] && Last() in known
      requires |list.nodes| == maxEntries + 1
      modifies this`entries, this`onEvictCalls, list, list.root, list.nodes
      ensures Owned() && View() == PausedGets.Evict(maxEntries, old(View()))
      ensures onEvictCalls == old(onEvictCalls) + (if hasOnEvict then [old(Last().value)] else [])
    {
      ghost var before, after := View(), PausedGets.Evict(maxEntries, View());
      PausedGets.EvictDrops(maxEntries, View());
      var oldest := list.Back();
      assert oldest == before.order[|before.order| - 1] && before.elems[oldest].key == oldest.key;
      Forget(oldest);
      assert View() == after;
      if hasOnEvict {
        onEvictCalls := onEvictCalls + [oldest.value];
      }
    }

    ghost function Last(): Element<V>
      requires list.nodes != []
      reads list
    {
      list.nodes[|list.nodes| - 1]
    }

    /** Set on a key that is cached. */
    method Refresh(key: string, value: V)
      requires Owned() && key in entries && entries[key] in list.nodes
      requires entries[key] in known && entries[key].key == key
      modifies list, list.root, list.nodes
      ensures Owned() && View() == PausedGets.Overwrite(old(View()), key, value)
    {
      var elem := entries[key];
      FrontedFacts(list.nodes, elem);
      ghost var before := View();
      list.MoveToFront(elem);
      elem.value := value;
      assert View().elems == before.elems[elem := Recency.Entry(key, value)] by {
        assert forall e :: e in known && e != elem ==> e.value == old(e.value);
      }
    }

    /** Set on a key that is not cached, before the eviction loop. */
    method Insert(key: string, value: V) returns (elem: Element<V>)
      requires Owned() && key !in entries
      modifies this`entries, this`known, list, list.root, list.nodes
      ensures fresh(elem) && Owned()
      ensures known == old(known) + {elem} && list.nodes == [elem] + old(list.nodes)
      ensures forall e :: e in old(known) ==> e.value == old(e.value)
      ensures View() == PausedGets.Insert(old(View()), key, value, elem)
    {
      elem := list.PushFront(key, value);
      entries := entries[key := elem];
      known := known + {elem};
      assert forall e :: e in old(known) ==> e.value == old(e.value);
    }

    /** Set's eviction loop. */
    method MakeRoom()
      requires Owned() && list.nodes != [] && Last() in known && |list.nodes| <= maxEntries + 1
      modifies this`entries, this`onEvictCalls, list, list.root, list.nodes
      ensures Owned() && View() == PausedGets.Evict(maxEntries, old(View()))
      ensures onEvictCalls == old(onEvictCalls) +
                (if hasOnEvict && |old(list.nodes)| > maxEntries then [old(Last().value)] else [])
    {
      while list.len > maxEntries
        invariant list.len > maxEntries ==> unchanged(this) && unchanged(list) && unchanged(old(list.nodes))
        invariant Owned()
        invariant list.len <= maxEntries ==> View() == PausedGets.Evict(maxEntries, old(View()))
        invariant list.len <= maxEntries ==>
                    onEvictCalls == old(onEvictCalls) +
                    (if hasOnEvict && |old(list.nodes)| > maxEntries then [old(Last().value)] else [])
        decreases list.len
      {
        EvictOldest();
      }
    }

    /** Set on a key that is not cached. */
    method Admit(key: string, value: V) returns (elem: Element<V>)
      requires Owned() && key !in entries && |list.nodes| <= maxEntries
      requires list.nodes != [] ==> Last() in known
      modifies this`entries, this`known, this`onEvictCalls, list, list.root, list.nodes
      ensures Owned() && fresh(elem) && known == old(known) + {elem}
      ensures View() == PausedGets.Evict(maxEntries, PausedGets.Insert(old(View()), key, value, elem))
      ensures onEvictCalls == old(onEvictCalls) +
                (if hasOnEvict && |old(list.nodes)| == maxEntries then [old(Last().value)] else [])
    {
      elem := Insert(key, value);
      MakeRoom();
    }

    method Set(key: string, value: V) returns (ghost elem: Element?<V>)
      requires Valid()
      modifies this`entries, this`known, this`onEvictCalls, list, list.root, list.nodes
      ensures Valid()
      ensures key in old(entries) ==> View() == PausedGets.Overwrite(old(View()), key, value)
      ensures key !in old(entries) ==>
                && elem != null && fresh(elem)
                && View() == PausedGets.Next(maxEntries, old(View()), PausedGets.Put(key, value, elem))
      ensures fresh(known - old(known)) && old(known) <= known
      ensures Contents() == Recency.Step(maxEntries, old(Contents()), Recency.Set(key, value))
      ensures onEvictCalls == old(onEvictCalls) +
                (if hasOnEvict then Oldest(maxEntries, old(Contents()), key) else [])
      ensures !hasOnEvict || key in old(entries) || |old(list.nodes)| < maxEntries ==> onEvictCalls == old(onEvictCalls)
      ensures hasOnEvict && key !in old(entries) && |old(list.nodes)| == maxEntries ==>
                onEvictCalls == old(onEvictCalls) + [old(Last().value)]
    {
      if key in entries {
        SetCached(key, value);
        elem := null;
      } else {
        elem := SetNew(key, value);
      }
    }

    method SetCached(key: string, value: V)
      requires Valid() && key in entries
      modifies list, list.root, list.nodes
      ensures Valid() && View() == PausedGets.Overwrite(old(View()), key, value)
      ensures Contents() == Recency.Step(maxEntries, old(Contents()), Recency.Set(key, value))
      ensures Oldest(maxEntries, old(Contents()), key) == []
    {
      ghost var before := View();
      assert Oldest(maxEntries, Contents(), key) == [] by {
        PausedGets.PlainLookup(maxEntries, before, key);
      }
      PausedGets.OverwriteStep(maxEntries, before, key, value);
      assert PausedGets.Indexed(before, entries[key]);
      Refresh(key, value);
    }

    method SetNew(key: string, value: V) returns (elem: Element<V>)
      requires Valid() && key !in entries
      modifies this`entries, this`known, this`onEvictCalls, list, list.root, list.nodes
      ensures Valid() && fresh(elem) && known == old(known) + {elem}
      ensures View() == PausedGets.Next(maxEntries, old(View()), PausedGets.Put(key, value, elem))
      ensures Contents() == Recency.Step(maxEntries, old(Contents()), Recency.Set(key, value))
      ensures onEvictCalls == old(onEvictCalls) +
                (if hasOnEvict then Oldest(maxEntries, old(Contents()), key) else [])
      ensures onEvictCalls == old(onEvictCalls) +
                (if hasOnEvict && |old(list.nodes)| == maxEntries then [old(Last().value)] else [])
    {
      ghost var before := View();
      ghost var pushed := Oldest(maxEntries, Contents(), key);
      OldestIsLast(maxEntries, before, key);
      PausedGets.PlainDistinct(maxEntries, before);
      elem := Admit(key, value);
      PutsNew(maxEntries, before, View(), key, value, elem);
      assert onEvictCalls == old(onEvictCalls) + (if hasOnEvict then pushed else []);
    }

    method Delete(key: string)
      requires Valid()
      modifies this`entries, list, list.root, list.nodes
      ensures Valid()
      ensures View() == PausedGets.Next(maxEntries, old(View()), PausedGets.Remove(key))
      ensures Contents() == Recency.Step(maxEntries, old(Contents()), Recency.Delete(key))
    {
      PausedGets.NextStep(maxEntries, View(), PausedGets.Remove(key));
      PausedGets.PlainLookup(maxEntries, View(), key);
      PausedGets.RunOne(maxEntries, Contents(), Recency.Delete(key));
      if key in entries {
        assert PausedGets.Indexed(View(), entries[key]);
        Forget(entries[key]);
      }
    }

    method Len() returns (n: int)
      requires Valid()
      ensures n == |Contents()| <= maxEntries
    {
      n := list.len;
    }

    /** Clear empties the list without disowning its elements. */
    method Clear()
      requires Valid()
      modifies this`entries, this`stale, this`onEvictCalls, list, list.root
      ensures Valid()
      ensures View() == PausedGets.Next(maxEntries, old(View()), PausedGets.ClearAll)
      ensures Contents() == Recency.Step(maxEntries, old(Contents()), Recency.Clear)
      ensures multiset(onEvictCalls) == multiset(old(onEvictCalls)) +
                (if hasOnEvict then Recency.Values(old(Contents())) else multiset{})
    {
      if hasOnEvict {
        NotifyAll();
      }
      PausedGets.NextStep(maxEntries, View(), PausedGets.ClearAll);
      assert forall e :: e in list.nodes ==> PausedGets.Indexed(View(), e);
      DropAll();
    }

    method NotifyAll()
      requires Valid()
      modifies this`onEvictCalls
      ensures Valid() && View() == old(View())
      ensures multiset(onEvictCalls) == multiset(old(onEvictCalls)) + Recency.Values(old(Contents()))
    {
      ghost var values := map k | k in entries :: entries[k].value;
      assert Recency.Lists(Contents(), values) by {
        PausedGets.PlainDistinct(maxEntries, View());
        forall k { PausedGets.PlainLookup(maxEntries, View(), k); }
      }
      EvictAll(Contents(), values);
    }

    /** The last two statements of Clear. */
    method DropAll()
      requires Owned() && forall e :: e in list.nodes ==> e in known
      modifies this`entries, this`stale, list, list.root
      ensures Owned()
      ensures View() == old(View()).(order := [], entries := map[],
                                     stale := old(stale) + set e | e in old(list.nodes))
    {
      forall e | e in list.nodes ensures Ours(e.prev) && Ours(e.next) {
        list.Neighbours(e);
      }
      entries := map[];
      stale := stale + set e | e in list.nodes;
      list.Init();
    }

    /** Clear's loop over the map, which Go visits in no particular order. */
    method EvictAll(ghost all: seq<Recency.Entry<V>>, ghost values: map<string, V>)
      requires entries.Keys == values.Keys && Recency.Lists(all, values)
      requires forall k :: k in entries ==> values[k] == entries[k].value
      modifies this`onEvictCalls
      ensures multiset(onEvictCalls) == multiset(old(onEvictCalls)) + Recency.Values(all)
    {
      var todo := entries.Keys;
      ghost var rest, left := all, values;
      while todo != {}
        invariant todo == left.Keys && todo <= entries.Keys
        invariant forall k :: k in todo ==> left[k] == entries[k].value
        invariant Recency.Lists(rest, left)
        invariant multiset(onEvictCalls) + Recency.Values(rest) ==
                  multiset(old(onEvictCalls)) + Recency.Values(all)
        decreases todo
      {
        var k :| k in todo;
        rest, left := EvictOne(onEvictCalls, rest, left, k);
        onEvictCalls := onEvictCalls + [entries[k].value];
        todo := todo - {k};
      }
      Recency.ListsEmpty(rest, left);
    }
  }

  /** The recency sequence is what the list holds, element by element, and the map indexes it. */
  lemma ContentsLaw<V(0)>(c: Cache<V>)
    requires c.Valid()
    ensures |c.Contents()| == |c.list.nodes| <= c.maxEntries
    ensures forall i :: 0 <= i < |c.list.nodes| ==>
              c.Contents()[i] == Recency.Entry(c.list.nodes[i].key, c.list.nodes[i].value)
    ensures forall k :: Recency.Lookup(c.Contents(), k) == if k in c.entries then Some(c.entries[k].value) else None
  {
    PausedGets.PlainDistinct(c.maxEntries, c.View());
    NodesKnown(c);
    forall k {
      PausedGets.PlainLookup(c.maxEntries, c.View(), k);
    }
  }

  method CacheOfOne<V(0)>(key: string, value: V) returns (c: Cache<V>)
    ensures fresh(c) && fresh(c.list) && fresh(c.list.root) && fresh(c.known)
    ensures c.Valid() && |c.list.nodes| == 1 && key in c.entries
  {
    c := new Cache(1, false);
    ghost var put := c.Set(key, value);
    assert |c.list.nodes| == |c.Contents()| == 1;
    PausedGets.PlainLookup(1, c.View(), key);
  }

  /** A cache of one entry, and the element that a Get of it has looked up. */
  method LookUpOnly<V(0)>(key: string, value: V) returns (c: Cache<V>, elem: Element<V>)
    ensures fresh(c) && fresh(c.list) && fresh(c.list.root) && fresh(elem)
    ensures c.Valid() && c.list.nodes == [elem] && elem != c.list.root && elem.prev == c.list.root == elem.next
  {
    c := CacheOfOne(key, value);
    var found := c.BeginGet(key);
    assert found.Some?;
    elem := found.value;
    c.list.Neighbours(elem);
  }

  /**
  A Get paused across a Clear corrupts the cache: the move relinks an element that Clear
  took out of the map, so the ring holds an element while the length is 0.
  */
  method ClearDuringGet<V(0)>(key: string, value: V) returns (c: Cache<V>)
    ensures !c.Valid() && c.list.len == 0 && c.entries == map[]
    ensures c.list.root.next != c.list.root
  {
    var elem;
    c, elem := LookUpOnly(key, value);
    NodesKnown(c);
    c.Clear();
    c.EndGet(elem);
  }

  lemma EvictOne<V>(calls: seq<V>, rest: seq<Recency.Entry<V>>, left: map<string, V>, k: string)
    returns (rest': seq<Recency.Entry<V>>, left': map<string, V>)
    requires Recency.Lists(rest, left) && k in left
    ensures Recency.Lists(rest', left') && left' == left - {k} && left'.Keys == left.Keys - {k}
    ensures multiset(calls + [left[k]]) + Recency.Values(rest') == multiset(calls) + Recency.Values(rest)
  {
    rest', left' := Recency.Without(rest, k), left - {k};
    Recency.ListsWithout(rest, left, k);
  }

  /** The value that a Set of a new key pushes out of a full cache. */
  ghost function Oldest<V>(n: nat, s: seq<Recency.Entry<V>>, key: string): seq<V> {
    if Recency.Lookup(s, key).None? && |s| == n && n > 0 then [s[n - 1].value] else []
  }

  lemma OldestIsLast<T, V>(n: nat, s: PausedGets.State<T, V>, key: string)
    requires n >= 1 && PausedGets.Agree(n, s) && key !in s.entries
    ensures PausedGets.Kept(s) && (s.order != [] ==> s.order[|s.order| - 1] in s.elems)
    ensures Oldest(n, PausedGets.Plain(s), key) ==
              if |s.order| == n then [s.elems[s.order[|s.order| - 1]].value] else []
  {
    PausedGets.PlainLookup(n, s, key);
    assert s.order != [] ==> PausedGets.Indexed(s, s.order[|s.order| - 1]);
  }

  lemma PutsNew<T, V>(n: nat, s: PausedGets.State<T, V>, s': PausedGets.State<T, V>, key: string, value: V, elem: T)
    requires n >= 1 && PausedGets.Agree(n, s) && PausedGets.Kept(s) && key !in s.entries && elem !in s.elems
    requires s' == PausedGets.Evict(n, PausedGets.Insert(s, key, value, elem))
    ensures PausedGets.Agree(n, s') && PausedGets.Kept(s) && PausedGets.Kept(s')
    ensures s' == PausedGets.Next(n, s, PausedGets.Put(key, value, elem))
    ensures PausedGets.Plain(s') == Recency.Step(n, PausedGets.Plain(s), Recency.Set(key, value))
  {
    PausedGets.PutStep(n, s, key, value, elem);
  }

  /** The callback of Set is what Recency.Conservation counts as evicted. */
  lemma OldestIsEvicted<V>(n: nat, s: seq<Recency.Entry<V>>, key: string, value: V)
    requires n >= 1 && Recency.Fits(n, s)
    ensures multiset(Oldest(n, s, key)) == Recency.Evicted(n, s, Recency.Set(key, value))
  {
    var t := [Recency.Entry(key, value)] + s;
    if |t| > n {
      assert t[n..] == [s[n - 1]] && t[n..][1..] == [];
      assert Recency.Values(t[n..]) == multiset{s[n - 1].value} + Recency.Values(t[n..][1..]);
      assert multiset([s[n - 1].value]) == multiset{s[n - 1].value};
    }
  }

  // ---- Traces of calls on a cache ----

  lemma NodesKnown<V(0)>(c: Cache<V>)
    requires c.Valid()
    ensures forall e :: e in c.list.nodes ==> e in c.known
  {
    assert forall e :: e in c.list.nodes ==> PausedGets.Indexed(c.View(), e);
  }

  method Call<V(0)>(c: Cache<V>, op: Recency.Op<V>)
    requires c.Valid() && c.hasOnEvict
    modifies c, c.list, c.list.root, c.known
    ensures c.Valid() && fresh(c.known - old(c.known))
    ensures c.Contents() == Recency.Step(c.maxEntries, old(c.Contents()), op)
    ensures multiset(c.onEvictCalls) ==
            multiset(old(c.onEvictCalls)) + Recency.Evicted(c.maxEntries, old(c.Contents()), op)
  {
    NodesKnown(c);
    match op
    case Get(k) =>
      var _ := c.Get(k);
    case Set(k, v) =>
      PausedGets.PlainDistinct(c.maxEntries, c.View());
      OldestIsEvicted(c.maxEntries, c.Contents(), k, v);
      ghost var _ := c.Set(k, v);
    case Delete(k) => c.Delete(k);
    case Clear => c.Clear();
  }

  lemma TraceNext<V>(n: nat, ops: seq<Recency.Op<V>>, i: nat)
    requires i < |ops|
    ensures var s := Recency.Run(n, [], ops[..i]);
            && Recency.Run(n, [], ops[..i + 1]) == Recency.Step(n, s, ops[i])
            && Recency.AllEvicted(n, ops[..i + 1]) == Recency.AllEvicted(n, ops[..i]) + Recency.Evicted(n, s, ops[i])
  {
    assert ops[..i + 1][..i] == ops[..i];
  }

  /**
  Any trace of calls on a new cache leaves the recency sequence of the trace, and every
  value ever Set is, with multiplicity, still cached, was passed to onEvict in one of the
  calls, or was overwritten or deleted.
  */
  method Replay<V(0)>(maxEntries: int, ops: seq<Recency.Op<V>>) returns (c: Cache<V>)
    ensures fresh(c) && fresh(c.list) && fresh(c.list.root) && fresh(c.known)
    ensures c.maxEntries == if maxEntries <= 0 then 50 else maxEntries
    ensures c.Valid() && c.Contents() == Recency.Run(c.maxEntries, [], ops)
    ensures multiset(c.onEvictCalls) == Recency.AllEvicted(c.maxEntries, ops)
    ensures Recency.AllSet(ops) ==
            Recency.Values(c.Contents()) + multiset(c.onEvictCalls) + Recency.AllDiscarded(c.maxEntries, ops)
  {
    c := new Cache(maxEntries, true);
    for i := 0 to |ops|
      invariant c.Valid() && c.hasOnEvict
      invariant fresh(c) && fresh(c.list) && fresh(c.list.root) && fresh(c.known)
      invariant c.Contents() == Recency.Run(c.maxEntries, [], ops[..i])
      invariant multiset(c.onEvictCalls) == Recency.AllEvicted(c.maxEntries, ops[..i])
    {
      TraceNext(c.maxEntries, ops, i);
      Call(c, ops[i]);
    }
    assert ops[..|ops|] == ops;
    Recency.Conservation(c.maxEntries, ops);
  }

  /** A Get after any trace of calls on a new cache. */
  method ReplayThenGet<V(0)>(maxEntries: int, ops: seq<Recency.Op<V>>, key: string) returns (found: Option<V>)
    ensures found == Recency.Lookup(Recency.Run(if maxEntries <= 0 then 50 else maxEntries, [], ops), key)
  {
    var c := Replay(maxEntries, ops);
    found := Find(c, key);
  }

  method Find<V(0)>(c: Cache<V>, key: string) returns (found: Option<V>)
    requires c.Valid()
    modifies c, c.list, c.list.root, c.known
    ensures c.Valid() && found == Recency.Lookup(old(c.Contents()), key)
  {
    NodesKnown(c);
    found := c.Get(key);
  }

  /**
  What a Get finds after a trace: a value Set before fewer than n other keys were touched,
  and nothing if the key was deleted, or everything cleared, and the key not Set since.
  */
  method GetAfter<V(0)>(maxEntries: int, before: seq<Recency.Op<V>>, op: Recency.Op<V>, since: seq<Recency.Op<V>>, key: string)
    returns (found: Option<V>)
    requires forall x :: x in since && x.Set? ==> x.key != key
    ensures var n := if maxEntries <= 0 then 50 else maxEntries;
            op.Set? && op.key == key && |Recency.Touched(since)| < n && (forall x :: x in since ==> !x.Clear? && x.key != key) ==>
              found == Some(op.value)
    ensures op == Recency.Delete(key) || op == Recency.Op<V>.Clear ==> found == None
  {
    found := ReplayThenGet(maxEntries, before + [op] + since, key);
    FoundAfter(if maxEntries <= 0 then 50 else maxEntries, before, op, since, key);
  }

  lemma FoundAfter<V>(n: nat, before: seq<Recency.Op<V>>, op: Recency.Op<V>, since: seq<Recency.Op<V>>, key: string)
    requires n >= 1 && forall x :: x in since && x.Set? ==> x.key != key
    ensures var found := Recency.Lookup(Recency.Run(n, [], before + [op] + since), key);
      && (op.Set? && op.key == key && |Recency.Touched(since)| < n && (forall x :: x in since ==> !x.Clear? && x.key != key) ==>
            found == Some(op.value))
      && (op == Recency.Delete(key) || op == Recency.Op<V>.Clear ==> found == None)
  {
    if op == Recency.Delete(key) || op == Recency.Op<V>.Clear {
      Recency.GoneStaysGone(n, before, op, since, key);
    } else if op.Set? && op.key == key && |Recency.Touched(since)| < n && (forall x :: x in since ==> !x.Clear? && x.key != key) {
      Recency.SetIsRetained(n, before, key, op.value, since);
    }
  }

  // ---- Interleaved calls on a cache ----

  /** What callers do to the cache in one go: a whole call, or one part of a Get. */
  datatype Section<V> =
    | Begin(caller: nat, key: string)
    | Move(caller: nat)
    | Read(caller: nat)
    | Set(key: string, value: V)
    | Delete(key: string)
    | Clear

  ghost predicate Performs<V(0)>(x: Section<V>, a: PausedGets.Action<Element<V>, V>) {
    match x
    case Begin(c, k) => a == PausedGets.Begin(c, k)
    case Move(c) => a == PausedGets.Move(c)
    case Read(c) => a == PausedGets.Read(c)
    case Set(k, v) => a.Put? && a.key == k && a.value == v
    case Delete(k) => a == PausedGets.Remove(k)
    case Clear => a == PausedGets.ClearAll
  }

  /** Who holds which element, and which elements some Clear found in the cache. */
  datatype Callers<V(0)> = Callers(paused: map<nat, Element<V>>, reading: map<nat, Element<V>>, cleared: set<Element<V>>)

  ghost function StateOf<V(0)>(c: Cache<V>, w: Callers<V>): PausedGets.State<Element<V>, V>
    reads c`entries, c`known, c`stale, c.list, c.known
  {
    c.View().(paused := w.paused, reading := w.reading)
  }

  ghost predicate Consistent<V(0)>(c: Cache<V>, w: Callers<V>)
    reads c`entries, c`known, c`stale, c.list, c.list.root, c.list.nodes, c.known
  {
    && c.Valid() && w.cleared == c.stale
    && (forall x :: x in w.paused ==> w.paused[x] in c.known)
    && (forall x :: x in w.reading ==> w.reading[x] in c.known)
  }

  /** The cache takes an allowed step of module PausedGets. */
  ghost predicate Follows<V(0)>(
    c: Cache<V>, s: PausedGets.State<Element<V>, V>, a: PausedGets.Action<Element<V>, V>, s': PausedGets.State<Element<V>, V>)
  {
    && c.maxEntries >= 0
    && PausedGets.Agree(c.maxEntries, s) && PausedGets.Enabled(s, a) && !PausedGets.MovesStale(s, a)
    && s' == PausedGets.Next(c.maxEntries, s, a)
  }

  lemma ConsistentAgrees<V(0)>(c: Cache<V>, w: Callers<V>)
    requires Consistent(c, w)
    ensures PausedGets.Agree(c.maxEntries, StateOf(c, w))
  {
    PausedGets.AgreeWithCallers(c.maxEntries, c.View(), w.paused, w.reading);
  }

  method BeginSection<V(0)>(c: Cache<V>, w: Callers<V>, caller: nat, key: string) returns (w': Callers<V>)
    requires Consistent(c, w)
    ensures Consistent(c, w')
    ensures Follows(c, StateOf(c, w), PausedGets.Begin(caller, key), StateOf(c, w'))
  {
    ConsistentAgrees(c, w);
    w' := w;
    if caller !in w.paused && caller !in w.reading {
      var found := c.BeginGet(key);
      if found.Some? {
        w' := w.(paused := w.paused[caller := found.value]);
      }
    }
  }

  /** The second lock of a Get, which breaks the cache exactly if it moves a stale element. */
  method MoveSection<V(0)>(c: Cache<V>, w: Callers<V>, caller: nat) returns (w': Callers<V>, intact: bool)
    requires Consistent(c, w)
    modifies c, c.list, c.list.root, c.known
    ensures c.known == old(c.known)
    ensures intact ==> Consistent(c, w') && Follows(c, old(StateOf(c, w)), PausedGets.Move(caller), StateOf(c, w'))
    ensures !intact ==> !c.Valid() && PausedGets.MovesStale(old(StateOf(c, w)), PausedGets.Move(caller))
  {
    ConsistentAgrees(c, w);
    NodesKnown(c);
    w', intact := w, true;
    if caller in w.paused {
      var elem := w.paused[caller];
      intact := elem !in w.cleared;
      c.EndGet(elem);
      w' := w.(paused := w.paused - {caller}, reading := w.reading[caller := elem]);
    }
  }

  /** The unlocked read that ends a Get. */
  method ReadSection<V(0)>(c: Cache<V>, w: Callers<V>, caller: nat) returns (w': Callers<V>, value: Option<V>)
    requires Consistent(c, w)
    ensures Consistent(c, w') && Follows(c, StateOf(c, w), PausedGets.Read(caller), StateOf(c, w'))
    ensures var s := StateOf(c, w);
            value == if caller in s.reading then Some(s.elems[s.reading[caller]].value) else None
  {
    ConsistentAgrees(c, w);
    value := if caller in w.reading then Some(w.reading[caller].value) else None;
    w' := w.(reading := w.reading - {caller});
  }

  /** A Set between parts of other callers' Gets. */
  method SetSection<V(0)>(c: Cache<V>, w: Callers<V>, key: string, value: V) returns (ghost a: PausedGets.Action<Element<V>, V>)
    requires Consistent(c, w)
    modifies c, c.list, c.list.root, c.known
    ensures Consistent(c, w) && fresh(c.known - old(c.known))
    ensures Performs(Set(key, value), a) && Follows(c, old(StateOf(c, w)), a, StateOf(c, w))
  {
    ghost var before := c.View();
    NodesKnown(c);
    ghost var put := c.Set(key, value);
    a := PausedGets.Put(key, value, if put == null then before.entries[key] else put);
    PutAsStep(c.maxEntries, before, c.View(), a);
    PausedGets.NextWithCallers(c.maxEntries, before, a, w.paused, w.reading);
  }

  lemma PutAsStep<T, V>(n: nat, s: PausedGets.State<T, V>, s': PausedGets.State<T, V>, a: PausedGets.Action<T, V>)
    requires PausedGets.Agree(n, s) && a.Put? && PausedGets.Enabled(s, a)
    requires a.key in s.entries ==> s' == PausedGets.Overwrite(s, a.key, a.value)
    requires a.key !in s.entries ==> s' == PausedGets.Next(n, s, a)
    ensures s' == PausedGets.Next(n, s, a)
  {
  }

  method DeleteSection<V(0)>(c: Cache<V>, w: Callers<V>, key: string) returns (ghost a: PausedGets.Action<Element<V>, V>)
    requires Consistent(c, w)
    modifies c, c.list, c.list.root, c.known
    ensures Consistent(c, w) && c.known == old(c.known)
    ensures Performs(Delete(key), a) && Follows(c, old(StateOf(c, w)), a, StateOf(c, w))
  {
    ghost var before := c.View();
    NodesKnown(c);
    c.Delete(key);
    a := PausedGets.Remove(key);
    PausedGets.NextWithCallers(c.maxEntries, before, a, w.paused, w.reading);
  }

  method ClearSection<V(0)>(c: Cache<V>, w: Callers<V>) returns (w': Callers<V>, ghost a: PausedGets.Action<Element<V>, V>)
    requires Consistent(c, w)
    modifies c, c.list, c.list.root, c.known
    ensures Consistent(c, w') && c.known == old(c.known)
    ensures Performs(Section<V>.Clear, a) && Follows(c, old(StateOf(c, w)), a, StateOf(c, w'))
  {
    ghost var before := c.View();
    EntriesAreNodes(c);
    w' := w.(cleared := w.cleared + c.entries.Values);
    c.Clear();
    a := PausedGets.ClearAll;
    PausedGets.NextWithCallers(c.maxEntries, before, a, w.paused, w.reading);
  }

  lemma EntriesAreNodes<V(0)>(c: Cache<V>)
    requires c.Valid()
    ensures c.entries.Values == set e | e in c.list.nodes
  {
    forall e | e in c.list.nodes ensures e in c.entries.Values {
      assert PausedGets.Indexed(c.View(), e);
    }
  }

  /**
  Callers run any sections of calls on a new cache, up to a move that breaks it. The cache
  takes the steps of an execution of module PausedGets, and it is broken exactly if the
  next section moves an element that a Clear found in the cache (PausedGets.MovesStaleIff).
  */
  method Interleave<V(0)>(maxEntries: int, hasOnEvict: bool, sections: seq<Section<V>>)
    returns (c: Cache<V>, w: Callers<V>,
             ghost states: seq<PausedGets.State<Element<V>, V>>, ghost actions: seq<PausedGets.Action<Element<V>, V>>)
    ensures c.maxEntries >= 1 && PausedGets.Execution(c.maxEntries, states, actions) && |actions| <= |sections|
    ensures forall i :: 0 <= i < |actions| ==> Performs(sections[i], actions[i])
    ensures c.Valid() ==> |actions| == |sections| && StateOf(c, w) == states[|actions|]
    ensures !c.Valid() ==> |actions| < |sections| && sections[|actions|].Move?
    ensures !c.Valid() ==> PausedGets.MovesStale(states[|actions|], PausedGets.Move(sections[|actions|].caller))
  {
    c := new Cache(maxEntries, hasOnEvict);
    w := Callers(map[], map[], {});
    states, actions := [StateOf(c, w)], [];
    for i := 0 to |sections|
      invariant Consistent(c, w) && fresh(c) && fresh(c.list) && fresh(c.list.root) && fresh(c.known)
      invariant |actions| == i && PausedGets.Execution(c.maxEntries, states, actions)
      invariant states[i] == StateOf(c, w)
      invariant forall j :: 0 <= j < i ==> Performs(sections[j], actions[j])
    {
      var intact;
      ghost var a;
      w, intact, a := RunSection(c, w, sections[i]);
      if !intact {
        return;
      }
      PausedGets.ExecutionExtends(c.maxEntries, states, actions, a);
      states, actions := states + [StateOf(c, w)], actions + [a];
    }
  }

  method RunSection<V(0)>(c: Cache<V>, w: Callers<V>, x: Section<V>)
    returns (w': Callers<V>, intact: bool, ghost a: PausedGets.Action<Element<V>, V>)
    requires Consistent(c, w)
    modifies c, c.list, c.list.root, c.known
    ensures fresh(c.known - old(c.known)) && Performs(x, a)
    ensures intact ==> Consistent(c, w') && Follows(c, old(StateOf(c, w)), a, StateOf(c, w'))
    ensures !intact ==> !c.Valid() && x.Move? && PausedGets.MovesStale(old(StateOf(c, w)), a)
  {
    w', intact := w, true;
    match x
    case Begin(caller, key) =>
      w' := BeginSection(c, w, caller, key);
      a := PausedGets.Begin(caller, key);
    case Move(caller) =>
      w', intact := MoveSection(c, w, caller);
      a := PausedGets.Move(caller);
    case Read(caller) =>
      var value;
      w', value := ReadSection(c, w, caller);
      a := PausedGets.Read(caller);
    case Set(key, value) => a := SetSection(c, w, key, value);
    case Delete(key) => a := DeleteSection(c, w, key);
    case Clear => w', a := ClearSection(c, w);
  }
}
