/**
  `IntMpscQueue` as an object: linked nodes on the heap, with the stub embedded in the
  queue, used by one thread at a time (no push is in progress when a call starts).
 */
module IntMpscQueue {

  class Node<T> {
    var next: Node?<T>
    const self: T

    constructor (self: T)
      ensures this.self == self
    {
      this.self := self;
    }
  }

  function At<T>(c: seq<Node<T>>, i: nat): Node?<T> {
    if i < |c| then c[i] else null
  }

  ghost predicate Linked<T>(c: seq<Node<T>>)
    reads c`next
  {
    forall i | 0 <= i < |c| :: c[i].next == At(c, i + 1)
  }

  /** A chain without the stub. */
  ghost function Payload<T>(c: seq<Node<T>>, stub: Node<T>): seq<Node<T>> {
    if c == [] then [] else (if c[0] == stub then [] else [c[0]]) + Payload(c[1..], stub)
  }

  lemma {:induction false} PayloadAppend<T>(c: seq<Node<T>>, stub: Node<T>, n: Node<T>)
    ensures Payload(c + [n], stub) == Payload(c, stub) + if n == stub then [] else [n]
  {
    if c == [] {
      assert (c + [n])[1..] == [];
    } else {
      assert (c + [n])[1..] == c[1..] + [n];
      PayloadAppend(c[1..], stub, n);
    }
  }

  class Queue<T> {
    var head: Node<T>
    var tail: Node<T>
    const stub: Node<T>
    ghost var chain: seq<Node<T>>

    /** The chain runs from the head to the tail; the stub may be anywhere on it, or off it with any link. */
    ghost predicate Valid()
      reads this, chain`next
    {
      && |chain| >= 1 && head == chain[0] && tail == chain[|chain| - 1]
      && (forall i, j | 0 <= i < j < |chain| :: chain[i] != chain[j])
      && Linked(chain)
    }

    /** The nodes pushed and not yet popped, oldest first. */
    ghost function Contents(): seq<Node<T>>
      reads this
    {
      Payload(chain, stub)
    }

    /** The nodes whose links the queue may write. */
    ghost function Nodes(): set<Node<T>>
      reads this
    {
      {stub} + set n | n in chain
    }

    constructor (junk: T)
      ensures Valid() && Contents() == [] && fresh(stub) && Nodes() == {stub}
    {
      var s := new Node(junk);
      head, tail, stub := s, s, s;
      chain := [s];
      new;
      stub.next := null;
      assert Payload(chain[1..], stub) == [];
    }

    /** The three memory steps of a push, of a node that is not on the chain. */
    method Append(node: Node<T>)
      requires Valid() && node !in chain
      modifies `tail, `chain, node`next, tail`next
      ensures Valid() && chain == old(chain) + [node]
      ensures Contents() == old(Contents()) + if node == stub then [] else [node]
    {
      PayloadAppend(chain, stub, node);
      node.next := null;
      var prev := tail;
      tail := node;
      prev.next := node;
      chain := chain + [node];
    }

    method Push(node: Node<T>)
      requires Valid() && node !in Nodes()
      modifies `tail, `chain, node`next, tail`next
      ensures Valid() && Contents() == old(Contents()) + [node] && Nodes() == old(Nodes()) + {node}
    {
      Append(node);
    }

    /** `head = n` moves the queue past its first node. */
    method Advance(n: Node<T>)
      requires Valid() && |chain| >= 2 && n == chain[1]
      modifies `head, `chain
      ensures Valid() && chain == old(chain[1..])
      ensures old(Contents()) == (if old(head) == stub then [] else [old(head)]) + Contents()
      ensures Nodes() <= old(Nodes()) && (old(head) != stub ==> old(head) in old(Nodes()) && old(head) !in Nodes())
    {
      assert forall i | 0 <= i < |chain[1..]| :: chain[1..][i] == chain[i + 1];
      head := n;
      chain := chain[1..];
    }

    /** The end of `pop`: the stub goes behind the only node, which can then be taken. */
    method TakeLast() returns (r: Node?<T>)
      requires Valid() && |chain| == 1 && head != stub
      modifies `head, `tail, `chain, stub`next, tail`next
      ensures Valid() && r == old(head)
      ensures old(Contents()) == [old(head)] + Contents()
      ensures Nodes() <= old(Nodes()) && r in old(Nodes()) && r !in Nodes()
    {
      hide Payload;
      r := null;
      var h := head;
      Append(stub);
      assert old(Contents()) == Contents();
      var n := h.next;
      if n != null {
        Advance(n);
        r := h;
      }
    }

    /** What the content tells of the chain. */
    lemma ChainOrEmpty()
      requires Valid()
      ensures head == stub && |chain| == 1 ==> Contents() == []
      ensures head.next == At(chain, 1) && (|chain| >= 2 ==> chain[1] != head)
    {
      assert |chain| == 1 ==> Payload(chain[1..], stub) == [];
    }

    /**
      With no push in progress, `pop` returns null exactly when the queue is empty and
      otherwise takes the oldest node; the node it returns is off the chain.
     */
    method Pop() returns (r: Node?<T>)
      requires Valid()
      modifies this, Nodes()`next
      ensures Valid()
      ensures r == null <==> old(Contents()) == []
      ensures old(Contents()) == (if r == null then [] else [r]) + Contents()
      ensures Nodes() <= old(Nodes()) && (r != null ==> r in old(Nodes()) && r !in Nodes())
    {
      hide Payload, Contents, Linked;
      r := null;
      var h := head;
      var n := h.next;
      ChainOrEmpty();
      if h == stub {
        if n == null {
          return;
        }
        Advance(n);
        ChainOrEmpty();
        h := n;
        n := n.next;
      }
      if n != null {
        Advance(n);
        return h;
      }
      var t := tail;
      if t == h {
        r := TakeLast();
      }
    }
  }
}
