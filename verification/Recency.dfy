/**
The recency sequence that internal/util/lrucache.go maintains, as a value: the
entries of the cache, most recently used first. `Step` is what one call does to it.
This module proves what the cache promises over whole traces of calls; module
LruCache proves that the linked structure computes exactly these steps.
*/
module Recency {
  import opened Wrappers
  import Sums

  datatype Entry<V> = Entry(key: string, value: V)

  datatype Op<V> =
    | Get(key: string)
    | Set(key: string, value: V)
    | Delete(key: string)
    | Clear

  ghost predicate Distinct<V>(s: seq<Entry<V>>) {
    forall i, j :: 0 <= i < j < |s| ==> s[i].key != s[j].key
  }

  ghost predicate HasKey<V>(s: seq<Entry<V>>, k: string) {
    exists i :: 0 <= i < |s| && s[i].key == k
  }

  /** The state of a cache of capacity n. */
  ghost predicate Fits<V>(n: nat, s: seq<Entry<V>>) {
    |s| <= n && Distinct(s)
  }

  function Lookup<V>(s: seq<Entry<V>>, k: string): Option<V> {
    if s == [] then None
    else if s[0].key == k then Some(s[0].value)
    else Lookup(s[1..], k)
  }

  function Without<V>(s: seq<Entry<V>>, k: string): seq<Entry<V>> {
    if s == [] then []
    else if s[0].key == k then Without(s[1..], k)
    else [s[0]] + Without(s[1..], k)
  }

  function Step<V>(n: nat, s: seq<Entry<V>>, op: Op<V>): seq<Entry<V>> {
    match op
    case Get(k) =>
      (match Lookup(s, k)
       case Some(v) => ToFront(s, k, v)
       case None => s)
    case Set(k, v) =>
      if Lookup(s, k).Some? then ToFront(s, k, v)
      else Trim(n, [Entry(k, v)] + s)
    case Delete(k) => Without(s, k)
    case Clear => []
  }

  function ToFront<V>(s: seq<Entry<V>>, k: string, v: V): seq<Entry<V>> {
    [Entry(k, v)] + Without(s, k)
  }

  function Trim<V>(n: nat, s: seq<Entry<V>>): seq<Entry<V>> {
    if |s| > n then s[..n] else s
  }

  /** The state after a trace, oldest call first. */
  function Run<V>(n: nat, s: seq<Entry<V>>, trace: seq<Op<V>>): seq<Entry<V>> {
    if trace == [] then s
    else Step(n, Run(n, s, trace[..|trace| - 1]), trace[|trace| - 1])
  }

  // ---- Basic facts about Lookup and Without ----

  lemma {:induction false} LookupAt<V>(s: seq<Entry<V>>, i: nat)
    requires i < |s| && Distinct(s)
    ensures Lookup(s, s[i].key) == Some(s[i].value)
  {
    if i > 0 {
      assert s[1..][i - 1] == s[i];
      LookupAt(s[1..], i - 1);
    }
  }

  lemma {:induction false} LookupFinds<V>(s: seq<Entry<V>>, k: string)
    ensures Lookup(s, k).Some? <==> HasKey(s, k)
    ensures Lookup(s, k).Some? ==> Entry(k, Lookup(s, k).value) in s
  {
    if s != [] {
      LookupFinds(s[1..], k);
      if HasKey(s, k) && s[0].key != k {
        var i :| 0 <= i < |s| && s[i].key == k;
        assert s[1..][i - 1].key == k;
      }
      if s[0].key != k && HasKey(s[1..], k) {
        var i :| 0 <= i < |s[1..]| && s[1..][i].key == k;
        assert s[i + 1].key == k;
      }
    }
  }

  lemma {:induction false} WithoutMembers<V>(s: seq<Entry<V>>, k: string)
    ensures forall j :: 0 <= j < |Without(s, k)| ==>
              Without(s, k)[j].key != k && HasKey(s, Without(s, k)[j].key)
    ensures Distinct(s) ==> Distinct(Without(s, k))
  {
    if s != [] {
      WithoutMembers(s[1..], k);
      var t := Without(s[1..], k);
      forall j | 0 <= j < |t|
        ensures HasKey(s, t[j].key) && (Distinct(s) ==> t[j].key != s[0].key)
      {
        var i :| 0 <= i < |s[1..]| && s[1..][i].key == t[j].key;
        assert s[i + 1].key == t[j].key;
      }
    }
  }

  lemma {:induction false} WithoutAbsent<V>(s: seq<Entry<V>>, k: string)
    requires !HasKey(s, k)
    ensures Without(s, k) == s
  {
    if s != [] {
      assert s[0].key != k;
      assert forall i :: 0 <= i < |s[1..]| ==> s[1..][i] == s[i + 1];
      WithoutAbsent(s[1..], k);
    }
  }

  lemma {:induction false} WithoutAt<V>(s: seq<Entry<V>>, i: nat)
    requires i < |s| && Distinct(s)
    ensures Without(s, s[i].key) == s[..i] + s[i + 1..]
  {
    if i == 0 {
      WithoutAbsent(s[1..], s[0].key);
    } else {
      assert s[1..][i - 1] == s[i];
      WithoutAt(s[1..], i - 1);
      assert [s[0]] + (s[1..][..i - 1] + s[1..][i..]) == s[..i] + s[i + 1..];
    }
  }

  lemma {:induction false} LookupWithout<V>(s: seq<Entry<V>>, k: string, j: string)
    ensures Lookup(Without(s, k), j) == if j == k then None else Lookup(s, j)
  {
    if s != [] {
      LookupWithout(s[1..], k, j);
      assert s[0].key != k ==> Without(s, k)[1..] == Without(s[1..], k);
    }
  }

  lemma WithoutLength<V>(s: seq<Entry<V>>, k: string)
    requires Distinct(s)
    ensures |Without(s, k)| == if Lookup(s, k).Some? then |s| - 1 else |s|
    ensures Lookup(s, k).None? ==> Without(s, k) == s
  {
    LookupFinds(s, k);
    if HasKey(s, k) {
      var i :| 0 <= i < |s| && s[i].key == k;
      WithoutAt(s, i);
    } else {
      WithoutAbsent(s, k);
    }
  }

  lemma ToFrontDistinct<V>(s: seq<Entry<V>>, k: string, v: V)
    requires Distinct(s)
    ensures Distinct(ToFront(s, k, v))
    ensures |ToFront(s, k, v)| == if Lookup(s, k).Some? then |s| else |s| + 1
  {
    WithoutMembers(s, k);
    WithoutLength(s, k);
  }

  /** A Set is always a move to the front followed by a trim. */
  lemma SetTrims<V>(n: nat, s: seq<Entry<V>>, k: string, v: V)
    requires Fits(n, s)
    ensures Step(n, s, Set(k, v)) == Trim(n, ToFront(s, k, v))
  {
    WithoutLength(s, k);
  }

  // ---- What one call does, entry by entry ----

  lemma WithoutCut<V>(s: seq<Entry<V>>, i: nat, k: string)
    requires Distinct(s) && i < |s| && s[i].key == k
    ensures Without(s, k) == s[..i] + s[i + 1..] && Lookup(s, k) == Some(s[i].value)
  {
    WithoutAt(s, i);
    LookupAt(s, i);
  }

  /** A call on the key of the i-th entry. */
  lemma HitLaw<V>(n: nat, s: seq<Entry<V>>, i: nat, k: string, v: V)
    requires Distinct(s) && i < |s| && s[i].key == k
    ensures Lookup(s, k) == Some(s[i].value)
    ensures Step(n, s, Get(k)) == [s[i]] + (s[..i] + s[i + 1..])
    ensures Step(n, s, Set(k, v)) == [Entry(k, v)] + (s[..i] + s[i + 1..])
    ensures Step(n, s, Delete(k)) == s[..i] + s[i + 1..]
    ensures Evicted(n, s, Set(k, v)) == Evicted(n, s, Delete(k)) == Evicted(n, s, Get(k)) == multiset{}
    ensures Discarded(s, Set(k, v)) == Discarded(s, Delete(k)) == multiset{s[i].value} && Discarded(s, Get(k)) == multiset{}
  {
    WithoutCut(s, i, k);
  }

  lemma Absent<V>(s: seq<Entry<V>>, k: string)
    requires forall i :: 0 <= i < |s| ==> s[i].key != k
    ensures Lookup(s, k) == None && Without(s, k) == s
  {
    LookupFinds(s, k);
    WithoutAbsent(s, k);
  }

  /** A Get or Delete of a key that is not cached does nothing. */
  lemma MissLaw<V>(n: nat, s: seq<Entry<V>>, k: string)
    requires forall i :: 0 <= i < |s| ==> s[i].key != k
    ensures Lookup(s, k) == None && Step(n, s, Get(k)) == Step(n, s, Delete(k)) == s
    ensures Discarded(s, Delete(k)) == Discarded(s, Get(k)) == multiset{}
    ensures Evicted(n, s, Get(k)) == Evicted(n, s, Delete(k)) == multiset{}
  {
    Absent(s, k);
  }

  /** A Set of a key that is not cached evicts exactly the oldest entry, and only from a full cache. */
  lemma InsertLaw<V>(n: nat, s: seq<Entry<V>>, k: string, v: V)
    requires n >= 1 && Fits(n, s) && forall i :: 0 <= i < |s| ==> s[i].key != k
    ensures Step(n, s, Set(k, v)) == [Entry(k, v)] + if |s| == n then s[..n - 1] else s
    ensures Evicted(n, s, Set(k, v)) == if |s| == n then multiset{s[n - 1].value} else multiset{}
    ensures Discarded(s, Set(k, v)) == multiset{}
  {
    Absent(s, k);
    if |s| == n {
      CutOff(n, [Entry(k, v)] + s);
    }
  }

  lemma CutOff<V>(n: nat, t: seq<Entry<V>>)
    requires n >= 1 && |t| == n + 1
    ensures t[..n] == [t[0]] + t[1..][..n - 1] && Beyond(n, t) == multiset{t[1..][n - 1].value}
  {
    assert t[n..] == [t[1..][n - 1]];
    ValuesOfOne(t[1..][n - 1]);
  }

  lemma ValuesOfOne<V>(e: Entry<V>)
    ensures Values([e]) == multiset{e.value}
  {
    assert [e][1..] == [];
    assert Values([e][1..]) == multiset{};
  }

  lemma ClearLaw<V>(n: nat, s: seq<Entry<V>>)
    ensures Step(n, s, Clear) == [] && Evicted(n, s, Clear) == Values(s) && Discarded(s, Clear) == multiset{}
  {
  }

  function ValueSeq<V>(s: seq<Entry<V>>): seq<V> {
    seq(|s|, i requires 0 <= i < |s| => s[i].value)
  }

  lemma {:induction false} ValuesLaw<V>(s: seq<Entry<V>>)
    ensures Values(s) == multiset(ValueSeq(s))
  {
    if s != [] {
      ValuesLaw(s[1..]);
      assert ValueSeq(s) == [s[0].value] + ValueSeq(s[1..]);
      assert multiset([s[0].value]) == multiset{s[0].value};
    }
  }

  /** What a call leaves to look up: the key it names, and every other key unless it is evicted or cleared. */
  lemma LookupLaw<V>(n: nat, s: seq<Entry<V>>, k: string, v: V, j: string)
    requires n >= 1 && Fits(n, s)
    ensures Lookup(Step(n, s, Set(k, v)), k) == Some(v)
    ensures Lookup(Step(n, s, Get(k)), j) == Lookup(s, j)
    ensures Lookup(Step(n, s, Delete(k)), j) == if j == k then None else Lookup(s, j)
    ensures j != k && (Lookup(s, k).Some? || |s| < n || (s != [] && s[|s| - 1].key != j)) ==>
              Lookup(Step(n, s, Set(k, v)), j) == Lookup(s, j)
    ensures j != k && Lookup(s, k).None? && |s| == n && s[n - 1].key == j ==> Lookup(Step(n, s, Set(k, v)), j) == None
  {
    LookupWithout(s, k, j);
    SetTrims(n, s, k, v);
    assert ToFront(s, k, v)[1..] == Without(s, k);
    if Lookup(s, k).Some? {
      assert ToFront(s, k, Lookup(s, k).value)[1..] == Without(s, k);
    }
    WithoutLength(s, k);
    if |s| == n && Lookup(s, k).None? {
      LookupInit(s, j);
      assert Trim(n, ToFront(s, k, v))[1..] == s[..n - 1];
    }
  }

  lemma {:induction false} LookupInit<V>(s: seq<Entry<V>>, j: string)
    requires Distinct(s) && s != []
    ensures Lookup(s[..|s| - 1], j) == if s[|s| - 1].key == j then None else Lookup(s, j)
  {
    if |s| > 1 {
      LookupInit(s[1..], j);
      assert s[1..][..|s| - 2] == s[..|s| - 1][1..];
    } else {
      assert s[..0] == [];
      assert s[1..] == [];
    }
  }

  /** Every call keeps the keys distinct and the length within the capacity. */
  lemma StepFits<V>(n: nat, s: seq<Entry<V>>, op: Op<V>)
    requires n >= 1 && Fits(n, s)
    ensures Fits(n, Step(n, s, op))
  {
    match op
    case Get(k) =>
      if Lookup(s, k).Some? {
        ToFrontDistinct(s, k, Lookup(s, k).value);
      }
    case Set(k, v) =>
      SetTrims(n, s, k, v);
      ToFrontDistinct(s, k, v);
    case Delete(k) =>
      WithoutMembers(s, k);
      WithoutLength(s, k);
    case Clear =>
  }

  lemma {:induction false} RunFits<V>(n: nat, s: seq<Entry<V>>, trace: seq<Op<V>>)
    requires n >= 1 && Fits(n, s)
    ensures Fits(n, Run(n, s, trace))
  {
    if trace != [] {
      RunFits(n, s, trace[..|trace| - 1]);
      StepFits(n, Run(n, s, trace[..|trace| - 1]), trace[|trace| - 1]);
    }
  }

  // ---- Inclusion: a larger cache holds whatever a smaller one holds ----

  /** s is obtained from t by leaving entries out. */
  ghost predicate Subsequence<V>(s: seq<Entry<V>>, t: seq<Entry<V>>) {
    s == [] ||
    (t != [] && if s[0] == t[0] then Subsequence(s[1..], t[1..]) else Subsequence(s, t[1..]))
  }

  ghost predicate Included<V>(m: nat, small: seq<Entry<V>>, n: nat, large: seq<Entry<V>>) {
    Fits(m, small) && Fits(n, large) &&
    Subsequence(small, large) && m - |small| <= n - |large|
  }

  lemma {:induction false} SubsequenceTail<V>(s: seq<Entry<V>>, t: seq<Entry<V>>)
    requires Subsequence(s, t)
    ensures s != [] ==> Subsequence(s[1..], t)
    ensures forall x :: Subsequence(s, [x] + t)
    ensures forall e :: e in s ==> e in t
  {
    if s != [] {
      if s[0] == t[0] {
        SubsequenceTail(s[1..], t[1..]);
        assert [t[0]] + t[1..] == t;
      } else {
        SubsequenceTail(s, t[1..]);
        assert [t[0]] + t[1..] == t;
        SubsequenceTail(s[1..], t[1..]);
      }
      forall x ensures Subsequence(s, [x] + t) {
        assert ([x] + t)[1..] == t;
        if s[0] == x {
          if s[0] == t[0] {
            assert Subsequence(s[1..], [t[0]] + t[1..]);
          } else {
            assert Subsequence(s[1..], [t[0]] + t[1..]);
          }
        }
      }
    }
  }

  lemma {:induction false} SubsequenceWithout<V>(s: seq<Entry<V>>, t: seq<Entry<V>>, k: string)
    requires Subsequence(s, t)
    ensures Subsequence(Without(s, k), Without(t, k))
  {
    if s != [] {
      if s[0] == t[0] {
        SubsequenceWithout(s[1..], t[1..], k);
      } else {
        SubsequenceWithout(s, t[1..], k);
        SubsequenceTail(Without(s, k), Without(t[1..], k));
      }
    }
  }

  lemma {:induction false} SubsequenceShorter<V>(s: seq<Entry<V>>, t: seq<Entry<V>>)
    requires Subsequence(s, t) && s != []
    ensures |s| <= |t|
    ensures Subsequence(s[..|s| - 1], t[..|t| - 1])
    ensures Subsequence(s[..|s| - 1], t)
  {
    if s[0] == t[0] {
      if |s| > 1 {
        SubsequenceShorter(s[1..], t[1..]);
        assert s[..|s| - 1][1..] == s[1..][..|s| - 2];
        assert t[..|t| - 1][1..] == t[1..][..|t| - 2];
      }
    } else {
      SubsequenceShorter(s, t[1..]);
      assert t[..|t| - 1][1..] == t[1..][..|t| - 2];
    }
  }

  /** A hit in the smaller list is a hit on the same value in the larger one. */
  lemma HitIncluded<V>(s: seq<Entry<V>>, t: seq<Entry<V>>, k: string)
    requires Subsequence(s, t) && Distinct(t) && Lookup(s, k).Some?
    ensures Lookup(t, k) == Lookup(s, k)
  {
    LookupFinds(s, k);
    SubsequenceTail(s, t);
    var e := Entry(k, Lookup(s, k).value);
    var i :| 0 <= i < |t| && t[i] == e;
    LookupAt(t, i);
  }

  lemma ToFrontIncluded<V>(s: seq<Entry<V>>, t: seq<Entry<V>>, k: string, v: V)
    requires Subsequence(s, t)
    ensures Subsequence(ToFront(s, k, v), ToFront(t, k, v))
  {
    SubsequenceWithout(s, t, k);
    assert ToFront(s, k, v)[1..] == Without(s, k);
    assert ToFront(t, k, v)[1..] == Without(t, k);
  }

  lemma InclusionGet<V>(m: nat, small: seq<Entry<V>>, n: nat, large: seq<Entry<V>>, k: string)
    requires 1 <= m <= n && Included(m, small, n, large)
    ensures Included(m, Step(m, small, Get(k)), n, Step(n, large, Get(k)))
  {
    StepFits(m, small, Get(k));
    StepFits(n, large, Get(k));
    if Lookup(large, k).Some? {
      var v := Lookup(large, k).value;
      ToFrontDistinct(large, k, v);
      if Lookup(small, k).Some? {
        HitIncluded(small, large, k);
        ToFrontDistinct(small, k, v);
        ToFrontIncluded(small, large, k, v);
      } else {
        WithoutLength(small, k);
        SubsequenceWithout(small, large, k);
        SubsequenceTail(small, Without(large, k));
      }
    } else if Lookup(small, k).Some? {
      HitIncluded(small, large, k);
    }
  }

  lemma InclusionSet<V>(m: nat, small: seq<Entry<V>>, n: nat, large: seq<Entry<V>>, k: string, v: V)
    requires 1 <= m <= n && Included(m, small, n, large)
    ensures Included(m, Step(m, small, Set(k, v)), n, Step(n, large, Set(k, v)))
  {
    StepFits(m, small, Set(k, v));
    StepFits(n, large, Set(k, v));
    SetTrims(m, small, k, v);
    SetTrims(n, large, k, v);
    ToFrontDistinct(small, k, v);
    ToFrontDistinct(large, k, v);
    ToFrontIncluded(small, large, k, v);
    SubsequenceShorter(ToFront(small, k, v), ToFront(large, k, v));
    if Lookup(small, k).Some? {
      HitIncluded(small, large, k);
    }
  }

  lemma InclusionDelete<V>(m: nat, small: seq<Entry<V>>, n: nat, large: seq<Entry<V>>, k: string)
    requires 1 <= m <= n && Included(m, small, n, large)
    ensures Included(m, Step(m, small, Delete(k)), n, Step(n, large, Delete(k)))
  {
    StepFits(m, small, Delete(k));
    StepFits(n, large, Delete(k));
    SubsequenceWithout(small, large, k);
    WithoutLength(small, k);
    WithoutLength(large, k);
    if Lookup(small, k).Some? {
      HitIncluded(small, large, k);
    }
  }

  lemma InclusionStep<V>(m: nat, small: seq<Entry<V>>, n: nat, large: seq<Entry<V>>, op: Op<V>)
    requires 1 <= m <= n && Included(m, small, n, large)
    ensures Included(m, Step(m, small, op), n, Step(n, large, op))
  {
    match op
    case Get(k) => InclusionGet(m, small, n, large, k);
    case Set(k, v) => InclusionSet(m, small, n, large, k, v);
    case Delete(k) => InclusionDelete(m, small, n, large, k);
    case Clear =>
  }

  /**
  For every trace and every pair of capacities the smaller cache's recency list is a
  subsequence of the larger one's, with at least as much room left in the larger one.
  A missed Get inserts nothing, so this is not the textbook prefix property.
  */
  lemma {:induction false} Inclusion<V>(m: nat, n: nat, trace: seq<Op<V>>)
    requires 1 <= m <= n
    ensures Included(m, Run(m, [], trace), n, Run(n, [], trace))
    ensures forall k :: Lookup(Run(m, [], trace), k).Some? ==>
              Lookup(Run(n, [], trace), k) == Lookup(Run(m, [], trace), k)
  {
    if trace != [] {
      var before := trace[..|trace| - 1];
      Inclusion(m, n, before);
      InclusionStep(m, Run(m, [], before), n, Run(n, [], before), trace[|trace| - 1]);
    }
    forall k | Lookup(Run(m, [], trace), k).Some?
      ensures Lookup(Run(n, [], trace), k) == Lookup(Run(m, [], trace), k)
    {
      HitIncluded(Run(m, [], trace), Run(n, [], trace), k);
    }
  }

  // ---- Working set: what a cache of capacity n certainly still holds ----

  /** What a reader of the trace alone knows about key k. */
  datatype Knowledge<V> = Unknown | Kept(value: V, others: set<string>)

  /**
  `Kept(v, others)` says that k was last Set to v, was not deleted or cleared since, and
  that between any touch of k and the next fewer than n distinct other keys were touched;
  `others` are those touched since the last touch of k.
  */
  function Known<V>(n: nat, trace: seq<Op<V>>, k: string): Knowledge<V> {
    if trace == [] then Unknown
    else
      var op := trace[|trace| - 1];
      var before := Known(n, trace[..|trace| - 1], k);
      match op
      case Clear => Unknown
      case Delete(j) => if j == k then Unknown else before
      case Set(j, v) => if j == k then Kept(v, {}) else Disturb(n, before, j)
      case Get(j) =>
        if j != k then Disturb(n, before, j)
        else if before.Kept? then Kept(before.value, {}) else Unknown
  }

  function Disturb<V>(n: nat, know: Knowledge<V>, j: string): Knowledge<V> {
    match know
    case Unknown => Unknown
    case Kept(v, others) => if |others + {j}| < n then Kept(v, others + {j}) else Unknown
  }

  /** k is at position p with value v, and only keys in `others` are ahead of it. */
  ghost predicate Ahead<V>(s: seq<Entry<V>>, k: string, v: V, others: set<string>, p: nat) {
    p < |s| && s[p] == Entry(k, v) && forall i :: 0 <= i < p ==> s[i].key in others
  }

  ghost predicate Holds<V>(s: seq<Entry<V>>, k: string, v: V, others: set<string>) {
    exists p: nat :: Ahead(s, k, v, others, p)
  }

  lemma {:induction false} DistinctKeysCount<V>(s: seq<Entry<V>>, p: nat, others: set<string>)
    requires p <= |s| && Distinct(s) && forall i :: 0 <= i < p ==> s[i].key in others
    ensures p <= |others|
  {
    if p > 0 {
      DistinctKeysCount(s, p - 1, others - {s[p - 1].key});
    }
  }

  lemma HoldsWithout<V>(s: seq<Entry<V>>, k: string, v: V, others: set<string>, j: string)
    requires Distinct(s) && j != k && Holds(s, k, v, others)
    ensures Holds(Without(s, j), k, v, others)
  {
    var p: nat :| Ahead(s, k, v, others, p);
    if HasKey(s, j) {
      var i: nat :| i < |s| && s[i].key == j;
      WithoutAt(s, i);
      assert Ahead(Without(s, j), k, v, others, if i < p then p - 1 else p);
    } else {
      WithoutAbsent(s, j);
    }
  }

  lemma HoldsToFront<V>(s: seq<Entry<V>>, k: string, v: V, others: set<string>, j: string, w: V)
    requires Distinct(s) && j != k && Holds(s, k, v, others)
    ensures Holds(ToFront(s, j, w), k, v, others + {j})
  {
    HoldsWithout(s, k, v, others, j);
    var p: nat :| Ahead(Without(s, j), k, v, others, p);
    assert Ahead(ToFront(s, j, w), k, v, others + {j}, p + 1);
  }

  lemma HoldsTrim<V>(n: nat, s: seq<Entry<V>>, k: string, v: V, others: set<string>)
    requires Distinct(s) && Holds(s, k, v, others) && |others| < n
    ensures Holds(Trim(n, s), k, v, others)
  {
    var p: nat :| Ahead(s, k, v, others, p);
    DistinctKeysCount(s, p, others);
    assert Ahead(Trim(n, s), k, v, others, p);
  }

  lemma HoldsStep<V>(n: nat, s: seq<Entry<V>>, k: string, v: V, others: set<string>, j: string, op: Op<V>)
    requires n >= 1 && Fits(n, s) && j != k && Holds(s, k, v, others) && |others + {j}| < n
    requires op == Get(j) || (op.Set? && op.key == j)
    ensures Holds(Step(n, s, op), k, v, others + {j})
  {
    if op.Set? {
      SetTrims(n, s, j, op.value);
      ToFrontDistinct(s, j, op.value);
      HoldsToFront(s, k, v, others, j, op.value);
      HoldsTrim(n, ToFront(s, j, op.value), k, v, others + {j});
    } else if Lookup(s, j).Some? {
      HoldsToFront(s, k, v, others, j, Lookup(s, j).value);
    } else {
      var p: nat :| Ahead(s, k, v, others, p);
      assert Ahead(s, k, v, others + {j}, p);
    }
  }

  lemma {:induction false} KnownHolds<V>(n: nat, trace: seq<Op<V>>, k: string)
    requires n >= 1
    ensures var know := Known(n, trace, k);
            know.Kept? ==> Holds(Run(n, [], trace), k, know.value, know.others)
  {
    if trace != [] {
      var before, op := trace[..|trace| - 1], trace[|trace| - 1];
      KnownHolds(n, before, k);
      RunFits(n, [], before);
      RunFits(n, [], trace);
      var s, know := Run(n, [], before), Known(n, before, k);
      var s' := Run(n, [], trace);
      if op.Set? && op.key == k {
        assert Ahead(s', k, op.value, {}, 0);
      } else if know.Kept? && !op.Clear? {
        if op.key == k {
          if op.Get? {
            var p: nat :| Ahead(s, k, know.value, know.others, p);
            LookupAt(s, p);
            assert Ahead(s', k, know.value, {}, 0);
          }
        } else if op.Delete? {
          HoldsWithout(s, k, know.value, know.others, op.key);
        } else if |know.others + {op.key}| < n {
          HoldsStep(n, s, k, know.value, know.others, op.key, op);
        }
      }
    }
  }

  /** A key the trace alone shows to be kept is found, with the value last Set. */
  lemma WorkingSet<V>(n: nat, trace: seq<Op<V>>, k: string)
    requires n >= 1 && Known(n, trace, k).Kept?
    ensures Lookup(Run(n, [], trace), k) == Some(Known(n, trace, k).value)
  {
    KnownHolds(n, trace, k);
    RunFits(n, [], trace);
    var s, know := Run(n, [], trace), Known(n, trace, k);
    var p: nat :| Ahead(s, k, know.value, know.others, p);
    LookupAt(s, p);
  }

  /** The keys that Get and Set calls of a trace mention. */
  ghost function Touched<V>(trace: seq<Op<V>>): set<string> {
    set op | op in trace && (op.Get? || op.Set?) :: op.key
  }

  lemma TouchedLast<V>(trace: seq<Op<V>>)
    requires trace != []
    ensures var op := trace[|trace| - 1];
            Touched(trace) ==
              Touched(trace[..|trace| - 1]) + (if op.Get? || op.Set? then {op.key} else {})
  {
    assert trace == trace[..|trace| - 1] + [trace[|trace| - 1]];
  }

  lemma KnownNext<V>(n: nat, trace: seq<Op<V>>, op: Op<V>, k: string, v: V, others: set<string>)
    requires Known(n, trace, k) == Kept(v, others) && !op.Clear? && op.key != k
    requires |others + (if op.Get? || op.Set? then {op.key} else {})| < n
    ensures Known(n, trace + [op], k) == Kept(v, others + if op.Get? || op.Set? then {op.key} else {})
  {
    assert (trace + [op])[..|trace|] == trace;
  }

  lemma {:induction false} KnownAfterSet<V>(n: nat, before: seq<Op<V>>, k: string, v: V, since: seq<Op<V>>)
    requires |Touched(since)| < n
    requires forall op :: op in since ==> !op.Clear? && op.key != k
    ensures Known(n, before + [Set(k, v)] + since, k) == Kept(v, Touched(since))
  {
    var trace := before + [Set(k, v)] + since;
    if since == [] {
      assert trace[|trace| - 1] == Set(k, v);
    } else {
      var rest, op := since[..|since| - 1], since[|since| - 1];
      TouchedLast(since);
      Sums.SubsetSize(Touched(rest), Touched(since));
      KnownAfterSet(n, before, k, v, rest);
      var known := before + [Set(k, v)] + rest;
      assert trace == known + [op];
      KnownNext(n, known, op, k, v, Touched(rest));
    }
  }

  /** The textbook form: fewer than n distinct other keys touched since the Set. */
  lemma SetIsRetained<V>(n: nat, before: seq<Op<V>>, k: string, v: V, since: seq<Op<V>>)
    requires n >= 1 && |Touched(since)| < n
    requires forall op :: op in since ==> !op.Clear? && op.key != k
    ensures Lookup(Run(n, [], before + [Set(k, v)] + since), k) == Some(v)
  {
    KnownAfterSet(n, before, k, v, since);
    WorkingSet(n, before + [Set(k, v)] + since, k);
  }

  /** A key that was deleted or cleared stays away until it is Set again. */
  lemma {:induction false} GoneStaysGone<V>(n: nat, before: seq<Op<V>>, op: Op<V>, since: seq<Op<V>>, k: string)
    requires n >= 1 && (op == Delete(k) || op == Op<V>.Clear)
    requires forall x :: x in since && x.Set? ==> x.key != k
    ensures Lookup(Run(n, [], before + [op] + since), k) == None
  {
    var trace := before + [op] + since;
    if since == [] {
      assert trace[..|before|] == before && trace == before + [op];
      LookupWithout(Run(n, [], before), k, k);
    } else {
      var rest, last := since[..|since| - 1], since[|since| - 1];
      GoneStaysGone(n, before, op, rest, k);
      assert trace[..|trace| - 1] == before + [op] + rest;
      RunFits(n, [], before + [op] + rest);
      StillGone(n, Run(n, [], before + [op] + rest), last, k);
    }
  }

  lemma StillGone<V>(n: nat, s: seq<Entry<V>>, op: Op<V>, k: string)
    requires n >= 1 && Fits(n, s) && Lookup(s, k) == None && (op.Set? ==> op.key != k)
    ensures Lookup(Step(n, s, op), k) == None
  {
    match op
    case Get(j) =>
      if s != [] {
        LookupLaw(n, s, j, s[0].value, k);
      }
    case Set(j, v) => LookupLaw(n, s, j, v, k);
    case Delete(j) => LookupWithout(s, j, k);
    case Clear =>
  }

  // ---- Conservation: where every value that was Set ends up ----

  ghost function Values<V>(s: seq<Entry<V>>): multiset<V> {
    if s == [] then multiset{} else multiset{s[0].value} + Values(s[1..])
  }

  /** The values one call hands to onEvict. */
  ghost function Evicted<V>(n: nat, s: seq<Entry<V>>, op: Op<V>): multiset<V> {
    match op
    case Set(k, v) =>
      if Lookup(s, k).None? then Beyond(n, [Entry(k, v)] + s) else multiset{}
    case Clear => Values(s)
    case _ => multiset{}
  }

  /** The values a trim cuts off. */
  ghost function Beyond<V>(n: nat, s: seq<Entry<V>>): multiset<V> {
    if |s| > n then Values(s[n..]) else multiset{}
  }

  /** The values one call overwrites or deletes without a callback. */
  ghost function Discarded<V>(s: seq<Entry<V>>, op: Op<V>): multiset<V> {
    match op
    case Set(k, _) => if Lookup(s, k).Some? then multiset{Lookup(s, k).value} else multiset{}
    case Delete(k) => if Lookup(s, k).Some? then multiset{Lookup(s, k).value} else multiset{}
    case _ => multiset{}
  }

  ghost function AllSet<V>(trace: seq<Op<V>>): multiset<V> {
    if trace == [] then multiset{}
    else
      var op := trace[|trace| - 1];
      AllSet(trace[..|trace| - 1]) + if op.Set? then multiset{op.value} else multiset{}
  }

  ghost function AllEvicted<V>(n: nat, trace: seq<Op<V>>): multiset<V> {
    if trace == [] then multiset{}
    else
      var before := trace[..|trace| - 1];
      AllEvicted(n, before) + Evicted(n, Run(n, [], before), trace[|trace| - 1])
  }

  ghost function AllDiscarded<V>(n: nat, trace: seq<Op<V>>): multiset<V> {
    if trace == [] then multiset{}
    else
      var before := trace[..|trace| - 1];
      AllDiscarded(n, before) + Discarded(Run(n, [], before), trace[|trace| - 1])
  }

  lemma {:induction false} ValuesConcat<V>(s: seq<Entry<V>>, t: seq<Entry<V>>)
    ensures Values(s + t) == Values(s) + Values(t)
  {
    if s == [] {
      assert s + t == t;
    } else {
      assert (s + t)[1..] == s[1..] + t;
      ValuesConcat(s[1..], t);
    }
  }

  lemma ValuesWithoutAt<V>(s: seq<Entry<V>>, i: nat)
    requires i < |s| && Distinct(s)
    ensures Values(s) == Values(Without(s, s[i].key)) + multiset{s[i].value}
  {
    WithoutAt(s, i);
    ValuesConcat(s[..i], s[i + 1..]);
    assert s == s[..i] + s[i..] && s[i..][1..] == s[i + 1..];
    ValuesConcat(s[..i], s[i..]);
  }

  lemma ValuesWithout<V>(s: seq<Entry<V>>, k: string)
    requires Distinct(s) && Lookup(s, k).Some?
    ensures Values(s) == Values(Without(s, k)) + multiset{Lookup(s, k).value}
  {
    LookupFinds(s, k);
    var i :| 0 <= i < |s| && s[i].key == k;
    LookupAt(s, i);
    ValuesWithoutAt(s, i);
  }

  /** s is the map m as a sequence, in some order. */
  ghost predicate Lists<V>(s: seq<Entry<V>>, m: map<string, V>) {
    Distinct(s) && forall k :: Lookup(s, k) == if k in m then Some(m[k]) else None
  }

  lemma ListsWithout<V>(s: seq<Entry<V>>, m: map<string, V>, k: string)
    requires Lists(s, m) && k in m
    ensures Lists(Without(s, k), m - {k})
    ensures Values(s) == Values(Without(s, k)) + multiset{m[k]}
  {
    ValuesWithout(s, k);
    WithoutMembers(s, k);
    forall j { LookupWithout(s, k, j); }
  }

  lemma ListsEmpty<V>(s: seq<Entry<V>>, m: map<string, V>)
    requires Lists(s, m) && m == map[]
    ensures s == []
  {
    assert s != [] ==> Lookup(s, s[0].key).Some?;
  }

  lemma ValuesToFront<V>(s: seq<Entry<V>>, k: string, v: V)
    requires Distinct(s) && Lookup(s, k).Some?
    ensures Values(s) + multiset{v} == Values(ToFront(s, k, v)) + multiset{Lookup(s, k).value}
  {
    ValuesWithout(s, k);
    assert ToFront(s, k, v)[1..] == Without(s, k);
  }

  lemma ValuesTrim<V>(n: nat, s: seq<Entry<V>>)
    ensures Values(s) == Values(Trim(n, s)) + Beyond(n, s)
  {
    if |s| > n {
      assert s == s[..n] + s[n..];
      ValuesConcat(s[..n], s[n..]);
    }
  }

  lemma ConservationSet<V>(n: nat, s: seq<Entry<V>>, k: string, v: V, x: V)
    requires n >= 1 && Fits(n, s)
    ensures Values(s)[x] + multiset{v}[x]
         == Values(Step(n, s, Set(k, v)))[x] + Evicted(n, s, Set(k, v))[x] + Discarded(s, Set(k, v))[x]
  {
    var op := Set(k, v);
    if Lookup(s, k).Some? {
      ValuesToFront(s, k, v);
      assert Evicted(n, s, op)[x] == 0;
      assert (Values(s) + multiset{v})[x] == (Values(Step(n, s, op)) + Discarded(s, op))[x];
    } else {
      var t := [Entry(k, v)] + s;
      assert t[1..] == s && Values(t) == multiset{v} + Values(s);
      ValuesTrim(n, t);
      assert Discarded(s, op)[x] == 0;
      assert Values(t)[x] == (Values(Step(n, s, op)) + Evicted(n, s, op))[x];
    }
  }

  lemma ConservationStep<V>(n: nat, s: seq<Entry<V>>, op: Op<V>, x: V)
    requires n >= 1 && Fits(n, s)
    ensures Values(s)[x] + (if op.Set? then multiset{op.value}[x] else 0)
         == Values(Step(n, s, op))[x] + Evicted(n, s, op)[x] + Discarded(s, op)[x]
  {
    match op
    case Get(k) =>
      if Lookup(s, k).Some? {
        var v := Lookup(s, k).value;
        ValuesToFront(s, k, v);
        assert (Values(s) + multiset{v})[x] == (Values(ToFront(s, k, v)) + multiset{v})[x];
      }
    case Set(k, v) => ConservationSet(n, s, k, v, x);
    case Delete(k) =>
      if Lookup(s, k).Some? {
        ValuesWithout(s, k);
        assert Values(s)[x] == (Values(Without(s, k)) + Discarded(s, op))[x];
      } else {
        WithoutLength(s, k);
      }
    case Clear =>
  }

  lemma {:induction false} ConservationOf<V>(n: nat, trace: seq<Op<V>>, x: V)
    requires n >= 1
    ensures AllSet(trace)[x]
         == Values(Run(n, [], trace))[x] + AllEvicted(n, trace)[x] + AllDiscarded(n, trace)[x]
  {
    if trace != [] {
      var before := trace[..|trace| - 1];
      ConservationOf(n, before, x);
      RunFits(n, [], before);
      ConservationStep(n, Run(n, [], before), trace[|trace| - 1], x);
    }
  }

  lemma PointwiseSum<V>(a: multiset<V>, b: multiset<V>, c: multiset<V>, d: multiset<V>)
    requires forall x :: a[x] == b[x] + c[x] + d[x]
    ensures a == b + c + d
  {
    assert forall x :: a[x] == (b + c + d)[x];
  }

  /**
  Every value ever Set is, counted with multiplicity, exactly one of: still cached, handed
  to onEvict, or overwritten or deleted.
  */
  lemma Conservation<V>(n: nat, trace: seq<Op<V>>)
    requires n >= 1
    ensures AllSet(trace) == Values(Run(n, [], trace)) + AllEvicted(n, trace) + AllDiscarded(n, trace)
  {
    var live, evicted, discarded := Values(Run(n, [], trace)), AllEvicted(n, trace), AllDiscarded(n, trace);
    forall x: V
      ensures AllSet(trace)[x] == live[x] + evicted[x] + discarded[x]
    {
      ConservationOf(n, trace, x);
    }
    PointwiseSum(AllSet(trace), live, evicted, discarded);
  }
}
