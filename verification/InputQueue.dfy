/** The linked queue of key events: heap nodes, a pointer to the first and a pointer to the last. */
module InputQueue {

  class Element {
    var value: int
    var next: Element?

    constructor (value: int)
      ensures this.value == value && next == null
    {
      this.value, next := value, null;
    }
  }

  /** The values of the nodes, in order. */
  ghost function Values(nodes: seq<Element>): (r: seq<int>)
    reads nodes
    ensures |r| == |nodes|
    ensures forall i :: 0 <= i < |nodes| ==> r[i] == nodes[i].value
  {
    if nodes == [] then [] else [nodes[0].value] + Values(nodes[1..])
  }

  ghost function Successor(nodes: seq<Element>, i: nat): Element? {
    if i + 1 < |nodes| then nodes[i + 1] else null
  }

  class Queue {
    var first: Element?
    var last: Element?
    /** The nodes reachable from `first` by `next`. */
    ghost var nodes: seq<Element>
    /** Every node that was ever in the queue; the queue changes no others. */
    ghost var owned: set<Element>

    ghost predicate Valid()
      reads this, nodes
    {
      && (forall e :: e in nodes ==> e in owned)
      && (first == null <==> nodes == [])
      && (last == null <==> nodes == [])
      && (nodes != [] ==> first == nodes[0] && last == nodes[|nodes| - 1])
      && (forall i :: 0 <= i < |nodes| ==>
            nodes[i].next == Successor(nodes, i))
      && (forall i, j :: 0 <= i < j < |nodes| ==> nodes[i] != nodes[j])
    }

    ghost function Contents(): seq<int>
      reads this, nodes
    {
      Values(nodes)
    }

    constructor ()
      ensures Valid() && fresh(this) && Contents() == [] && nodes == [] && owned == {}
    {
      first, last, nodes, owned := null, null, [], {};
    }

    method AddElement(value: int)
      requires Valid()
      modifies this, owned
      ensures Valid() && Contents() == old(Contents()) + [value]
      ensures exists e: Element :: fresh(e) && nodes == old(nodes) + [e] && owned == old(owned) + {e}
    {
      hide Values;
      var newElement := new Element(value);
      if last != null {
        last.next := newElement;
      }
      if first == null {
        first := newElement;
      }
      last := newElement;
      nodes := nodes + [newElement];
      owned := owned + {newElement};
    }

    /** Popping an empty queue yields 0 and changes nothing. */
    method PopElement() returns (value: int)
      requires Valid()
      modifies this
      ensures Valid() && owned == old(owned)
      ensures old(Contents()) == [] ==> value == 0 && Contents() == [] && nodes == old(nodes)
      ensures old(Contents()) != [] ==>
                value == old(Contents())[0] && Contents() == old(Contents())[1..] && nodes == old(nodes)[1..]
    {
      if first == null {
        return 0;
      }
      value := first.value;
      var newFirst := first.next;
      first := newFirst;
      if newFirst == null {
        last := null;
      }
      nodes := nodes[1..];
    }

    method IsEmpty() returns (empty: bool)
      requires Valid()
      ensures empty <==> Contents() == []
    {
      empty := first == null;
    }

    /** How a reload of the images empties the queue. */
    method Drain()
      requires Valid()
      modifies this
      ensures Valid() && Contents() == [] && first == null && last == null && owned == old(owned)
    {
      while first != null
        invariant Valid() && owned == old(owned)
        decreases |nodes|
      {
        var _ := PopElement();
      }
    }
  }
}
