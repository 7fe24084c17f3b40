/** Sums of a weight over a finite set, in whatever order the set is visited, and over a sequence. */
module Sums {
  ghost function Sum<K>(w: map<K, nat>, s: set<K>): nat
    requires s <= w.Keys
  {
    if s == {} then 0
    else
      var x :| x in s;
      w[x] + Sum(w, s - {x})
  }

  lemma {:induction false} SumRemove<K>(w: map<K, nat>, s: set<K>, x: K)
    requires s <= w.Keys && x in s
    ensures Sum(w, s) == w[x] + Sum(w, s - {x})
  {
    var y :| y in s && Sum(w, s) == w[y] + Sum(w, s - {y});
    if y != x {
      SumRemove(w, s - {y}, x);
      SumRemove(w, s - {x}, y);
      assert s - {y} - {x} == s - {x} - {y};
    }
  }

  lemma SumAdd<K>(w: map<K, nat>, s: set<K>, x: K)
    requires s <= w.Keys && x in w && x !in s
    ensures Sum(w, s + {x}) == w[x] + Sum(w, s)
  {
    SumRemove(w, s + {x}, x);
    assert s + {x} - {x} == s;
  }

  lemma {:induction false} SumAgree<K>(w: map<K, nat>, w': map<K, nat>, s: set<K>)
    requires s <= w.Keys && s <= w'.Keys && forall x :: x in s ==> w[x] <= w'[x]
    ensures Sum(w, s) <= Sum(w', s)
    ensures (forall x :: x in s ==> w[x] == w'[x]) ==> Sum(w, s) == Sum(w', s)
  {
    if s != {} {
      var x :| x in s;
      SumRemove(w, s, x);
      SumRemove(w', s, x);
      SumAgree(w, w', s - {x});
    }
  }

  lemma {:induction false} SubsetSize<T>(a: set<T>, b: set<T>)
    requires a <= b
    ensures |a| <= |b|
  {
    if a != {} {
      var x :| x in a;
      SubsetSize(a - {x}, b - {x});
    }
  }

  // ---- Sums over sequences ----

  function Total(s: seq<nat>): nat {
    if s == [] then 0 else Total(s[..|s| - 1]) + s[|s| - 1]
  }

  lemma TotalAppend(s: seq<nat>, n: nat)
    ensures Total(s + [n]) == Total(s) + n
  {
    assert (s + [n])[..|s|] == s;
  }

  lemma TotalNext(s: seq<nat>, i: nat)
    requires i < |s|
    ensures Total(s[..i + 1]) == Total(s[..i]) + s[i]
  {
    assert s[..i + 1][..i] == s[..i];
  }

  lemma TotalOfTwo(a: nat, b: nat)
    ensures Total([]) == 0 && Total([a]) == a && Total([a, b]) == a + b
  {
    assert [a] == [] + [a] && [a, b] == [a] + [b];
    TotalAppend([], a);
    TotalAppend([a], b);
  }
}
