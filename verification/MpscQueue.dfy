/**
  `MpscQueue` as an object: a linked list behind a dummy node, used by one thread at a
  time.  Each `pop` deletes the dummy and makes the node it took the data from the next one.
 */
module MpscQueue {

  class Node<T> {
    var next: Node?<T>
    const data: T

    constructor (data: T)
      ensures this.data == data && next == null
    {
      this.data := data;
      next := null;
    }
  }

  function At<T>(c: seq<Node<T>>, i: nat): Node?<T> {
    if i < |c| then c[i] else null
  }

  class Queue<T> {
    var head: Node<T>
    var tail: Node<T>
    ghost var chain: seq<Node<T>>

    ghost predicate Valid()
      reads this, chain`next
    {
      && |chain| >= 1 && head == chain[0] && tail == chain[|chain| - 1]
      && (forall i, j | 0 <= i < j < |chain| :: chain[i] != chain[j])
      && (forall i | 0 <= i < |chain| :: chain[i].next == At(chain, i + 1))
    }

    /** The data behind the dummy, oldest first. */
    ghost function Contents(): seq<T>
      requires |chain| >= 1
      reads this
    {
      seq(|chain| - 1, i requires 0 <= i < |chain| - 1 reads this => chain[i + 1].data)
    }

    constructor (junk: T)
      ensures Valid() && Contents() == [] && fresh(chain)
    {
      var n := new Node(junk);
      head, tail := n, n;
      chain := [n];
    }

    method Push(data: T)
      requires Valid()
      modifies `tail, `chain, tail`next
      ensures Valid() && Contents() == old(Contents()) + [data]
      ensures |chain| == |old(chain)| + 1 && chain[..|old(chain)|] == old(chain) && fresh(chain[|old(chain)|])
    {
      var next := new Node(data);
      var prev := tail;
      tail := next;
      prev.next := next;
      chain := chain + [next];
      assert Contents() == old(Contents()) + [data];
    }

    /**
      `fallback` is what the caller's variable holds if nothing is popped.  `deleted` is
      the node freed: the old dummy, which is then off the chain.
     */
    method Pop(fallback: T) returns (popped: bool, data: T, ghost deleted: Node?<T>)
      requires Valid()
      modifies `head, `chain
      ensures Valid()
      ensures popped <==> old(Contents()) != []
      ensures old(Contents()) == (if popped then [data] else []) + Contents()
      ensures !popped ==> data == fallback && deleted == null
      ensures popped ==> deleted == old(head) && old(chain) == [deleted] + chain && deleted !in chain
    {
      var h := head;
      var next := h.next;
      assert chain[0].next == At(chain, 1);
      popped, data, deleted := false, fallback, null;
      if next != null {
        head := next;
        data := next.data;
        deleted := h;
        chain := chain[1..];
        popped := true;
        assert old(Contents()) == [data] + Contents();
      }
    }
  }
}
