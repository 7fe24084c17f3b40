/**
The part of Go's container/list that internal/util/lrucache.go relies on: a ring of
elements through a root element, each element remembering the list that owns it.
`Remove` disowns an element, `MoveToFront` ignores an element it does not own, and
`Init` empties the ring without disowning anything.
*/
module LinkedList {
  import opened Sequences

  /** A list element together with the cache entry stored in it. */
  class Element<V(0)> {
    var next: Element?<V>
    var prev: Element?<V>
    var owner: List?<V>
    const key: string
    var value: V

    constructor (key: string, value: V)
      ensures this.key == key && this.value == value
      ensures next == null && prev == null && owner == null
    {
      this.key, this.value := key, value;
      next, prev, owner := null, null, null;
    }

    constructor Root()
      ensures next == this && prev == this && owner == null
    {
      key := "";
      next, prev, owner := this, this, null;
    }
  }

  class List<V(0)> {
    const root: Element<V>
    var len: int
    ghost var nodes: seq<Element<V>>

    /** The i-th element; the root stands before the first and after the last. */
    ghost function Nth(s: seq<Element<V>>, i: int): Element<V> {
      if 0 <= i < |s| then s[i] else root
    }

    ghost predicate Ring()
      reads this, root`next, root`prev, nodes`next, nodes`prev
    {
      && (forall i {:trigger Nth(nodes, i).next} :: -1 <= i < |nodes| ==>
            Nth(nodes, i).next == Nth(nodes, i + 1))
      && (forall i {:trigger Nth(nodes, i).prev} :: 0 <= i <= |nodes| ==>
            Nth(nodes, i).prev == Nth(nodes, i - 1))
    }

    ghost predicate Linked()
      reads this, root`next, root`prev, nodes`next, nodes`prev, nodes`owner
    {
      && root !in nodes
      && NoRepeats(nodes)
      && (forall e :: e in nodes ==> e.owner == this)
      && Ring()
    }

    ghost predicate Valid()
      reads this, root`next, root`prev, nodes`next, nodes`prev, nodes`owner
    {
      Linked() && len == |nodes|
    }

    constructor ()
      ensures Valid() && nodes == [] && fresh(root)
    {
      root := new Element.Root();
      len, nodes := 0, [];
    }

    /**
    Links e in right after the root: the tail of both insert and move. `clean` says that
    e is not linked in already and that the rest of the ring is in order.
    */
    method LinkFirst(e: Element<V>, ghost clean: bool)
      requires e != root && e.owner == this && root.next != null
      requires clean ==> Linked() && e !in nodes
      modifies this`nodes, root`next, root`prev, nodes`next, nodes`prev, e`next, e`prev, root.next`prev
      ensures clean ==> Linked() && nodes == [e] + old(nodes)
      ensures !clean ==> nodes == old(nodes) && root.next == e
    {
      assert clean ==> Nth(nodes, -1).next == Nth(nodes, 0);
      e.prev := root;
      e.next := root.next;
      e.prev.next := e;
      e.next.prev := e;
      if clean {
        nodes := [e] + nodes;
        assert forall i :: 1 <= i <= |nodes| ==> Nth(nodes, i) == Nth(old(nodes), i - 1);
      }
    }

    lemma NthOfCut(s: seq<Element<V>>, k: nat)
      requires k < |s|
      ensures forall i {:trigger Nth(Cut(s, k), i)} :: Nth(Cut(s, k), i) == Nth(s, if i < k then i else i + 1)
    {
    }

    /** The elements besides its own that the list would write to when it moves e. */
    ghost function Strays(e: Element<V>): set<Element?<V>>
      reads this`nodes, e`owner, e`next, e`prev
    {
      if e.owner == this && e !in nodes then {e, e.prev, e.next} else {}
    }

    /** The neighbours of a linked element. */
    lemma Neighbours(e: Element<V>)
      requires Linked() && e in nodes
      ensures var k := IndexOf(nodes, e);
              e.prev == Nth(nodes, k - 1) && e.next == Nth(nodes, k + 1)
    {
      var k := IndexOf(nodes, e);
      assert e == Nth(nodes, k) && Nth(nodes, k).prev == Nth(nodes, k - 1) && Nth(nodes, k).next == Nth(nodes, k + 1);
    }

    /** The two assignments that take e out of the ring: the head of both remove and move. */
    method Unlink(e: Element<V>)
      requires Linked() && e != root && e.owner == this && e.prev != null && e.next != null
      modifies this`nodes, root`next, root`prev, nodes`next, nodes`prev, Strays(e)`next, Strays(e)`prev
      ensures e in old(nodes) ==> Linked() && nodes == Cut(old(nodes), IndexOf(old(nodes), e)) && e !in nodes
      ensures e !in old(nodes) ==> nodes == old(nodes)
      ensures e !in old(nodes) ==> root.next == if old(e.prev) == root then old(e.next) else old(root.next)
    {
      ghost var was := nodes;
      if e in was {
        Neighbours(e);
      }
      e.prev.next := e.next;
      e.next.prev := e.prev;
      if e in was {
        ghost var k := IndexOf(was, e);
        nodes := Cut(was, k);
        CutFacts(was, k);
        NthOfCut(was, k);
        forall i {:trigger Nth(nodes, i).next} | -1 <= i < |nodes|
          ensures Nth(nodes, i).next == Nth(nodes, i + 1)
        {
          assert i != k - 1 ==> Nth(nodes, i) != Nth(was, k - 1);
        }
        forall i {:trigger Nth(nodes, i).prev} | 0 <= i <= |nodes|
          ensures Nth(nodes, i).prev == Nth(nodes, i - 1)
        {
          assert i != k ==> Nth(nodes, i) != Nth(was, k + 1);
        }
      }
    }

    method PushFront(key: string, value: V) returns (e: Element<V>)
      requires Valid()
      modifies this, root, nodes
      ensures fresh(e) && e.key == key && e.value == value
      ensures Valid() && nodes == [e] + old(nodes)
      ensures forall x :: x in old(nodes) ==> x.value == old(x.value)
    {
      e := new Element(key, value);
      e.owner := this;
      assert Nth(nodes, -1).next == Nth(nodes, 0);
      LinkFirst(e, true);
      len := len + 1;
    }

    method Remove(e: Element<V>)
      requires Valid() && (e.owner == this ==> e in nodes)
      modifies this, root, nodes
      ensures Valid() && nodes == Dropped(old(nodes), e)
      ensures e in old(nodes) ==> e.owner == null
      ensures forall x :: x in old(nodes) ==> x.value == old(x.value)
    {
      if e.owner == this {
        Neighbours(e);
        Unlink(e);
        e.next := null;
        e.prev := null;
        e.owner := null;
        len := len - 1;
      }
    }

    /**
    Moves a linked element to the front and ignores an element that the list does not own.
    Moving an element that it owns without containing it, as `Init` leaves behind, always
    breaks the ring.
    */
    method MoveToFront(e: Element<V>)
      requires Valid() && e != root
      requires e.owner == this && e !in nodes ==> e.prev != null && e.next != null
      modifies this`nodes, root`next, root`prev, nodes`next, nodes`prev, Strays(e)`next, Strays(e)`prev
      ensures Valid() <==> !(old(e.owner) == this && e !in old(nodes))
      ensures Valid() ==> nodes == Fronted(old(nodes), e)
      ensures !Valid() ==> root.next == e
    {
      assert Nth(nodes, -1).next == Nth(nodes, 0);
      if e.owner != this || root.next == e {
        return;
      }
      ghost var linked := e in nodes;
      if linked {
        Neighbours(e);
      }
      Unlink(e);
      assert linked ==> Nth(nodes, -1).next == Nth(nodes, 0);
      LinkFirst(e, linked);
      assert !linked ==> Nth(nodes, -1).next != Nth(nodes, 0);
    }

    method Back() returns (e: Element?<V>)
      requires Valid()
      ensures e == if nodes == [] then null else nodes[|nodes| - 1]
    {
      assert Nth(nodes, |nodes|).prev == Nth(nodes, |nodes| - 1);
      e := if len == 0 then null else root.prev;
    }

    /** Empties the ring. The elements keep `owner == this` and their stale links. */
    method Init()
      modifies this, root
      ensures Valid() && nodes == []
      ensures root.owner == old(root.owner)
    {
      root.next := root;
      root.prev := root;
      len := 0;
      nodes := [];
    }
  }
}
