/** Removing and fronting members of duplicate-free sequences. */
module Sequences {

  /** s without the element at position k. */
  ghost function Cut<T>(s: seq<T>, k: int): seq<T>
    requires 0 <= k < |s|
  {
    s[..k] + s[k + 1..]
  }

  ghost predicate NoRepeats<T>(s: seq<T>) {
    forall i, j :: 0 <= i < j < |s| ==> s[i] != s[j]
  }

  lemma CutFacts<T>(s: seq<T>, k: nat)
    requires k < |s| && NoRepeats(s)
    ensures NoRepeats(Cut(s, k)) && s[k] !in Cut(s, k)
    ensures forall x :: x in Cut(s, k) ==> x in s
  {
  }

  /** s after its member e is moved to the front; s itself if e is not a member. */
  ghost function Fronted<T>(s: seq<T>, e: T): seq<T> {
    if e in s then [e] + Cut(s, IndexOf(s, e)) else s
  }

  ghost function Dropped<T>(s: seq<T>, e: T): seq<T> {
    if e in s then Cut(s, IndexOf(s, e)) else s
  }

  ghost function IndexOf<T>(s: seq<T>, e: T): (k: int)
    requires e in s
    ensures 0 <= k < |s| && s[k] == e
  {
    var k :| 0 <= k < |s| && s[k] == e;
    k
  }

  lemma FrontedFacts<T>(s: seq<T>, e: T)
    requires NoRepeats(s)
    ensures NoRepeats(Fronted(s, e)) && |Fronted(s, e)| == |s|
    ensures forall x :: x in Fronted(s, e) <==> x in s
  {
    if e in s {
      var k := IndexOf(s, e);
      CutFacts(s, k);
      assert forall x :: x in s ==> x == e || x in Cut(s, k);
    }
  }

  lemma DroppedFacts<T>(s: seq<T>, e: T)
    requires NoRepeats(s)
    ensures NoRepeats(Dropped(s, e)) && |Dropped(s, e)| <= |s|
    ensures forall x :: x in Dropped(s, e) <==> x in s && x != e
  {
    if e in s {
      var k := IndexOf(s, e);
      CutFacts(s, k);
      assert forall x :: x in s ==> x == e || x in Cut(s, k);
    }
  }
}
