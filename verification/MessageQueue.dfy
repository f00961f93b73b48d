/**
  `MessageQueue` as an object over the intrusive queue, with no producer in the middle
  of a push: `receive` and the loop of `run` on the heap.
 */
module MessageQueue {
  import opened MpscMemory
  import opened Fifo
  import IntMpscQueue
  import T = MessageQueueTheorems

  /** The messages of some nodes. */
  ghost function MessagesOf(nodes: seq<IntMpscQueue.Node<Msg>>): (ms: seq<Msg>)
    ensures |ms| == |nodes|
  {
    seq(|nodes|, i requires 0 <= i < |nodes| => nodes[i].self)
  }

  /** What a call of `receive` comes to. */
  datatype Outcome = Handled(result: bool) | Waits

  lemma {:induction false} FirstNullFound(ms: seq<Msg>)
    ensures forall i | 0 <= i < T.FirstNull(ms) :: ms[i].Command?
    ensures T.FirstNull(ms) < |ms| ==> ms[T.FirstNull(ms)] == NullMsg
  {
    if ms != [] && ms[0].Command? {
      FirstNullFound(ms[1..]);
    }
  }

  /** One more node taken is one more node deleted and, if it holds a command, one more call. */
  lemma TakeOne(nodes: seq<IntMpscQueue.Node<Msg>>, ms: seq<Msg>, n: nat)
    requires n < |nodes| == |ms|
    ensures Elements(nodes[..n + 1]) == Elements(nodes[..n]) + {nodes[n]}
    ensures Ids(ms[..n + 1]) == Ids(ms[..n]) + Ids([ms[n]])
    ensures ms[n].NullMsg? ==> Ids(ms[..n + 1]) == Ids(ms[..n])
    ensures nodes[n..] != [] && nodes[n..][0] == nodes[n] && nodes[n..][1..] == nodes[n + 1..]
    ensures ms[n..] != [] && ms[n..][0] == ms[n] && ms[n..][1..] == ms[n + 1..]
  {
    assert nodes[..n + 1] == nodes[..n] + [nodes[n]];
    assert ms[..n + 1] == ms[..n] + [ms[n]];
    IdsAppend(ms[..n], ms[n]);
    IdsAppend([], ms[n]);
    assert [] + [ms[n]] == [ms[n]];
  }

  lemma TakeNone(nodes: seq<IntMpscQueue.Node<Msg>>, ms: seq<Msg>)
    ensures Elements(nodes[..0]) == {} && Ids(ms[..0]) == [] && nodes[0..] == nodes && ms[0..] == ms
  {
  }

  lemma TakeAll(nodes: seq<IntMpscQueue.Node<Msg>>, ms: seq<Msg>)
    ensures nodes[..|nodes|] == nodes && ms[..|ms|] == ms
  {
  }

  lemma NoIds(ms: seq<Msg>)
    ensures Ids([]) == [] && [] + ms == ms
  {
  }

  class MessageQueue {
    const queue: IntMpscQueue.Queue<Msg>
    var called: seq<nat>                                  // the commands executed, in order
    ghost var deleted: set<IntMpscQueue.Node<Msg>>

    /** What has been deleted is neither in the queue nor any of its parts. */
    ghost predicate Valid()
      reads this, queue, queue.chain`next
    {
      queue.Valid() && deleted !! queue.Nodes()
    }

    /** The queued messages, oldest first. */
    ghost function Messages(): seq<Msg>
      reads this, queue
    {
      MessagesOf(queue.Contents())
    }

    constructor (junk: Msg)
      ensures Valid() && Messages() == [] && called == [] && fresh(queue) && fresh(queue.stub)
      ensures queue.Nodes() == {queue.stub}
    {
      queue := new IntMpscQueue.Queue(junk);
      called := [];
      deleted := {};
    }

    /** `send` of a command, or `nullmsg`: a new node for the message goes to the end. */
    method Send(msg: Msg)
      requires Valid()
      modifies queue`tail, queue`chain, queue.tail`next
      ensures Valid() && Messages() == old(Messages()) + [msg]
      ensures fresh(queue.Nodes() - old(queue.Nodes()))
    {
      var node := new IntMpscQueue.Node(msg);
      queue.Push(node);
      assert queue.Contents() == old(queue.Contents()) + [node];
    }

    /**
      `receive` takes the oldest message, calls it if it is a command and deletes its
      node; on an empty queue it goes to wait.
     */
    method Receive() returns (outcome: Outcome)
      requires Valid()
      modifies this, queue, queue.Nodes()`next
      ensures Valid() && queue.Nodes() <= old(queue.Nodes())
      ensures outcome.Waits? <==> old(Messages()) == []
      ensures outcome.Waits? ==> Messages() == [] && called == old(called) && deleted == old(deleted)
      ensures outcome.Handled? ==>
        && queue.Contents() == old(queue.Contents())[1..] && Messages() == old(Messages())[1..]
        && (outcome.result <==> old(Messages())[0].Command?)
        && called == old(called) + Ids([old(Messages())[0]])
        && deleted == old(deleted) + {old(queue.Contents())[0]}
    {
      hide IntMpscQueue.Queue.Valid, IntMpscQueue.Queue.Contents, IntMpscQueue.Queue.Nodes, Ids;
      ghost var nodes := queue.Contents();
      var node := queue.Pop();
      if node == null {
        node := queue.Pop();  // between prepare_wait and commit_wait
      }
      if node == null {
        return Waits;
      }
      assert nodes == [node] + queue.Contents();
      assert MessagesOf(nodes)[0] == node.self;
      IdsAppend([], node.self);
      NoIds([node.self]);
      var result := false;
      if node.self.Command? {
        called := called + [node.self.id];
        result := true;
      }
      deleted := deleted + {node};
      outcome := Handled(result);
    }

    /**
      `run` calls the commands queued before the first null message, in order, and leaves
      what follows it; without a null message it calls them all and goes to wait.
     */
    method Run() returns (waits: bool)
      requires Valid()
      modifies this, queue, queue.Nodes()`next
      ensures Valid()
      ensures var ms, nodes := old(Messages()), old(queue.Contents());
        var k := T.FirstNull(ms);
        && (forall i | 0 <= i < k :: ms[i].Command?)
        && called == old(called) + Ids(ms[..k])
        && (waits <==> k == |ms|)
        && (waits ==> Messages() == [] && deleted == old(deleted) + Elements(nodes))
        && (!waits ==>
              && ms[k] == NullMsg && Messages() == ms[k + 1..]
              && deleted == old(deleted) + Elements(nodes[..k + 1]))
    {
      hide IntMpscQueue.Queue.Valid, IntMpscQueue.Queue.Contents, IntMpscQueue.Queue.Nodes, Ids, T.FirstNull,
        Elements, MessagesOf;
      ghost var ms, nodes := Messages(), queue.Contents();
      ghost var k, n := T.FirstNull(ms), 0;
      FirstNullFound(ms);
      TakeNone(nodes, ms);
      var outcome := Handled(true);
      while outcome == Handled(true)
        invariant 0 <= n <= |nodes| == |ms|
        invariant outcome == Handled(true) ==> n <= k
        invariant outcome == Handled(false) ==> n == k + 1
        invariant outcome == Waits ==> n == k == |ms|
        invariant Valid() && queue.Nodes() <= old(queue.Nodes())
        invariant queue.Contents() == nodes[n..] && Messages() == ms[n..]
        invariant called == old(called) + Ids(ms[..n])
        invariant deleted == old(deleted) + Elements(nodes[..n])
        decreases outcome == Handled(true), |ms| - n
      {
        if n < |ms| {
          TakeOne(nodes, ms, n);
        }
        outcome := Receive();
        if outcome.Handled? {
          n := n + 1;
        }
      }
      TakeAll(nodes, ms);
      if outcome == Handled(false) {
        TakeOne(nodes, ms, k);
      }
      waits := outcome.Waits?;
    }
  }
}
