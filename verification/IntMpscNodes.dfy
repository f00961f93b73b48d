/** The FIFO order of `IntMpscQueue` for the nodes themselves, whatever messages they hold. */
module IntMpscNodes {
  import opened MpscMemory
  import opened Fifo
  import opened Sending
  import opened IntMpscSteps
  import opened IntMpscRuns

  /** The nodes of a chain other than the stub. */
  function Payload(c: seq<Ptr>): seq<Ptr> {
    if c == [] then [] else (if c[0] == Stub then [] else [c[0]]) + Payload(c[1..])
  }

  lemma {:induction false} PayloadAppend(c: seq<Ptr>, n: Ptr)
    ensures Payload(c + [n]) == Payload(c) + if n == Stub then [] else [n]
  {
    if c == [] {
      assert (c + [n])[1..] == [];
    } else {
      assert (c + [n])[1..] == c[1..] + [n];
      PayloadAppend(c[1..], n);
    }
  }

  lemma Unfold(heap: map<Ptr, Cell>, c: seq<Ptr>)
    requires c != []
    ensures Payload(c) == (if c[0] == Stub then [] else [c[0]]) + Payload(c[1..])
    ensures Msgs(heap, c) == (if c[0] == Stub then [] else [SelfOf(heap, c[0])]) + Msgs(heap, c[1..])
  {
  }

  /** The messages queued are those of the nodes queued, in the same order. */
  lemma {:induction false} MessagesOfPayload(heap: map<Ptr, Cell>, c: seq<Ptr>)
    ensures |Msgs(heap, c)| == |Payload(c)|
    ensures forall i | 0 <= i < |Payload(c)| :: Msgs(heap, c)[i] == SelfOf(heap, Payload(c)[i])
  {
    if c != [] {
      var rest := c[1..];
      MessagesOfPayload(heap, rest);
      hide Payload, Msgs;
      Unfold(heap, c);
    }
  }

  /** A node enters the queue at its exchange and leaves it when it becomes the result of `pop`. */
  function NodeEvent(q: Queue, a: Act): Event<Ptr> {
    if !Enabled(q, a) then Internal else
    match a
    case DoPush(t) => if Exchanges(q.mem, Producer(t)) then Enq(q.mem.pushes[Producer(t)].node) else Internal
    case DoPop => if q.pop.StoreHead? then Deq(q.pop.h) else Internal
    case _ => Internal
  }

  function NodeTrace(acts: seq<Act>, stubSelf: Msg): seq<Event<Ptr>> {
    if acts == [] then []
    else
      var k := |acts| - 1;
      NodeTrace(acts[..k], stubSelf) + [NodeEvent(Run(acts[..k], stubSelf), acts[k])]
  }

  lemma NodeStep(q: Queue, c: seq<Ptr>, a: Act)
    requires Inv(q, c)
    ensures Allows(Payload(c), NodeEvent(q, a), Payload(ChainStep(q, c, a)))
  {
    hide Linked, LinkOk;
    if Enabled(q, a) {
      match a
      case DoPush(t) =>
        if Exchanges(q.mem, Producer(t)) {
          PayloadAppend(c, q.mem.pushes[Producer(t)].node);
        }
      case DoPop =>
        if q.pop.PushStub? && Exchanges(q.mem, Consumer) {
          PayloadAppend(c, Stub);
        }
      case _ =>
    }
  }

  /** Every run's history of nodes is one of the FIFO and ends with the nodes queued. */
  lemma {:induction false} NodesRefineFifo(acts: seq<Act>, stubSelf: Msg)
    ensures Replay(NodeTrace(acts, stubSelf)) == Some(Payload(ChainOf(acts, stubSelf)))
  {
    if acts == [] {
      assert [Stub][1..] == [] && Payload([Stub]) == [];
    } else {
      hide Inv;
      var k := |acts| - 1;
      var q, c := Run(acts[..k], stubSelf), ChainOf(acts[..k], stubSelf);
      NodesRefineFifo(acts[..k], stubSelf);
      ShapeAlways(acts[..k], stubSelf);
      NodeStep(q, c, acts[k]);
      ReplayExtend(NodeTrace(acts[..k], stubSelf), Payload(c), NodeEvent(q, acts[k]), Payload(ChainOf(acts, stubSelf)));
    }
  }

  /** A step of `pop` ends with a node exactly when it takes that node. */
  lemma ResultStep(q: Queue, c: seq<Ptr>, a: Act, r: Ptr)
    requires Inv(q, c) && r != Null
    ensures Step(q, a).pop == Done(r) <==>
      NodeEvent(q, a) == Deq(r) || (q.pop == Done(r) && !(a.DoReturn? && Enabled(q, a)))
    ensures Step(q, a).pop == Done(r) && q.pop == Done(r) ==> !NodeEvent(q, a).Deq?
  {
    hide Linked;
  }

  /**
    `pop` returns the oldest node not yet returned: the nodes exchanged so far are, in
    order, those returned by earlier calls, then the one this call returns, then those
    still queued.
   */
  lemma ReturnsOldestNode(acts: seq<Act>, stubSelf: Msg, r: Ptr)
    requires Run(acts, stubSelf).pop == Done(r) && r != Null
    ensures r != Stub
    ensures var back := Dequeued(NodeTrace(acts, stubSelf));
      && back != [] && back[|back| - 1] == r
      && Enqueued(NodeTrace(acts, stubSelf)) == back + Payload(ChainOf(acts, stubSelf))
  {
    NodesRefineFifo(acts, stubSelf);
    FifoConserves(NodeTrace(acts, stubSelf));
    LastReturned(acts, stubSelf, r);
    SafeReclamation(acts, stubSelf, r) by { ShapeAlways(acts, stubSelf); }
  }

  lemma {:induction false} LastReturned(acts: seq<Act>, stubSelf: Msg, r: Ptr)
    requires Run(acts, stubSelf).pop == Done(r) && r != Null
    ensures var back := Dequeued(NodeTrace(acts, stubSelf)); back != [] && back[|back| - 1] == r
  {
    hide Inv, Step, NodeEvent, PopStep;
    if acts != [] {
      var k := |acts| - 1;
      var q, c := Run(acts[..k], stubSelf), ChainOf(acts[..k], stubSelf);
      var trace := NodeTrace(acts[..k], stubSelf);
      ShapeAlways(acts[..k], stubSelf);
      ResultStep(q, c, acts[k], r);
      assert (trace + [NodeEvent(q, acts[k])])[..|trace|] == trace;
      if NodeEvent(q, acts[k]) != Deq(r) {
        LastReturned(acts[..k], stubSelf, r);
      }
    }
  }

  // ---------- What producers send ----------

  /** The messages whose pushes have been begun. */
  function Begun(acts: seq<Act>, stubSelf: Msg): seq<Sent> {
    if acts == [] then []
    else
      var k := |acts| - 1;
      var q := Run(acts[..k], stubSelf);
      Begun(acts[..k], stubSelf)
      + if acts[k].DoSend? && Enabled(q, acts[k]) then [Sent(acts[k].t, acts[k].msg)] else []
  }

  /** The messages exchanged, as the queue's history has them, and by whom. */
  function Exchanged(acts: seq<Act>, stubSelf: Msg): seq<Sent> {
    if acts == [] then []
    else
      var k := |acts| - 1;
      var q := Run(acts[..k], stubSelf);
      Exchanged(acts[..k], stubSelf)
      + if acts[k].DoPush? && EventOf(q, acts[k]).Enq? then [Sent(acts[k].t, EventOf(q, acts[k]).item)] else []
  }

  lemma Entering(q: Queue, c: seq<Ptr>)
    requires Inv(q, c)
    ensures EnteringAllocated(q.mem)
    ensures forall t | t in q.mem.pushes && !q.mem.pushes[t].Link? :: q.mem.pushes[t].node !in Held(q, c)
  {
    assert forall t | t in q.mem.pushes :: PushOk(q.mem, c, Held(q, c), q.mem.pushes[t]);
  }

  lemma OthersFrame(q: Queue, c: seq<Ptr>, a: Act)
    requires Inv(q, c) && !a.DoSend? && !a.DoPush?
    ensures forall t: Thread | t.Producer? :: t in Step(q, a).mem.pushes <==> t in q.mem.pushes
    ensures forall t: Thread | t.Producer? && t in q.mem.pushes :: Step(q, a).mem.pushes[t] == q.mem.pushes[t]
    ensures forall t | t in q.mem.pushes && !q.mem.pushes[t].Link? ::
      SelfOf(Step(q, a).mem.heap, q.mem.pushes[t].node) == SelfOf(q.mem.heap, q.mem.pushes[t].node)
  {
    Entering(q, c);
    hide Linked, PushStep;
    if a.DoPop? && CanPop(q) && q.pop.PushStub? {
      PushSelf(q.mem, Consumer);
    }
  }

  lemma EnteringStep(q: Queue, c: seq<Ptr>, a: Act, begun: seq<Sent>, sent: seq<Sent>)
    requires Inv(q, c) && InOrder(begun, sent, q.mem)
    ensures InOrder(begun + if a.DoSend? && Enabled(q, a) then [Sent(a.t, a.msg)] else [],
                    sent + if a.DoPush? && EventOf(q, a).Enq? then [Sent(a.t, EventOf(q, a).item)] else [],
                    Step(q, a).mem)
  {
    hide InOrder, Inv, PopStep;
    Entering(q, c);
    assert begun + [] == begun && sent + [] == sent;
    if Enabled(q, a) {
      match a
      case DoSend(t, n, msg, junk) => OrderBegin(begun, sent, q.mem, t, n, msg, junk);
      case DoPush(t) => OrderPush(begun, sent, q.mem, t);
      case _ =>
        OthersFrame(q, c, a);
        OrderFrame(begun, sent, q.mem, Step(q, a).mem);
    }
  }

  lemma {:induction false} OrderAlways(acts: seq<Act>, stubSelf: Msg)
    ensures InOrder(Begun(acts, stubSelf), Exchanged(acts, stubSelf), Run(acts, stubSelf).mem)
  {
    hide Step, InOrder, Inv, EventOf;
    if acts == [] {
      assert InOrder([], [], Run([], stubSelf).mem) by { NobodySends(stubSelf); }
    } else {
      var k := |acts| - 1;
      var q, c := Run(acts[..k], stubSelf), ChainOf(acts[..k], stubSelf);
      ShapeAlways(acts[..k], stubSelf);
      OrderAlways(acts[..k], stubSelf);
      EnteringStep(q, c, acts[k], Begun(acts[..k], stubSelf), Exchanged(acts[..k], stubSelf));
    }
  }

  lemma NobodySends(stubSelf: Msg)
    ensures InOrder([], [], Run([], stubSelf).mem)
  {
  }

  lemma {:induction false} EnqueuedIsExchanged(acts: seq<Act>, stubSelf: Msg)
    ensures Messages(Exchanged(acts, stubSelf)) == Enqueued(Trace(acts, stubSelf))
  {
    if acts != [] {
      hide Run, Step, EventOf, Messages;
      var k := |acts| - 1;
      var before, es := acts[..k], Trace(acts, stubSelf);
      EnqueuedIsExchanged(before, stubSelf);
      TraceLength(before, stubSelf);
      assert es[..k] == Trace(before, stubSelf);
      var q := Run(before, stubSelf);
      OnlyPushesEnqueue(q, acts[k]);
      if EventOf(q, acts[k]).Enq? {
        MessagesAppend(Exchanged(before, stubSelf), Sent(acts[k].t, EventOf(q, acts[k]).item));
      }
    } else {
      assert Messages([]) == [];
    }
  }

  lemma OnlyPushesEnqueue(q: Queue, a: Act)
    ensures EventOf(q, a).Enq? ==> a.DoPush?
  {
  }

  lemma {:induction false} TraceLength(acts: seq<Act>, stubSelf: Msg)
    ensures |Trace(acts, stubSelf)| == |acts|
  {
    if acts != [] {
      TraceLength(acts[..|acts| - 1], stubSelf);
    }
  }

  /**
    What the queue's history says was enqueued is what producers were given to push: each
    producer's messages, in the order in which it began to push them, all but at most the last.
   */
  lemma EnqueuesWhatWasSent(acts: seq<Act>, stubSelf: Msg, p: nat)
    ensures Messages(Exchanged(acts, stubSelf)) == Enqueued(Trace(acts, stubSelf))
    ensures var begun, sent := Begun(acts, stubSelf), Exchanged(acts, stubSelf);
      && By(sent, p) <= By(begun, p) && |By(begun, p)| <= |By(sent, p)| + 1
      && (Producer(p) !in Run(acts, stubSelf).mem.pushes ==> By(sent, p) == By(begun, p))
  {
    OrderAlways(acts, stubSelf);
    EnqueuedIsExchanged(acts, stubSelf);
    SentInOrder(Begun(acts, stubSelf), Exchanged(acts, stubSelf), Run(acts, stubSelf).mem, 0, p);
  }
}
