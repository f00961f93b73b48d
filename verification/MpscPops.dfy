/**
  What a call of `MpscQueue::pop` returns: alone, under interference, and when it has to
  answer that there is nothing.
 */
module MpscPops {
  import opened MpscMemory
  import opened Fifo
  import opened Sending
  import opened MpscSteps

  // ---------- Progress ----------

  function Rank(pc: PopPc): nat {
    match pc
    case LoadHead => 5
    case ReadNext(_) => 4
    case StoreHead(_, _) => 3
    case ReadData(_, _) => 2
    case DeleteDummy(_, _) => 1
    case _ => 0
  }

  /** Inside `pop` the consumer can always go on, and each of its steps brings it closer to the end. */
  lemma RankStep(q: Queue, a: Act)
    requires !q.pop.Idle? && !q.pop.Done?
    ensures Enabled(q, DoPop) && Rank(q.pop) >= 1
    ensures a.DoPop? ==> Rank(Step(q, a).pop) < Rank(q.pop)
    ensures !a.DoPop? ==> Step(q, a).pop == q.pop
  {
  }

  function OwnSteps(acts: seq<Act>): nat {
    if acts == [] then 0 else OwnSteps(acts[..|acts| - 1]) + if acts[|acts| - 1].DoPop? then 1 else 0
  }

  /** A call of `pop` is never blocked and returns within five steps of its own, whatever producers do. */
  lemma {:induction false} PopIsWaitFree(acts: seq<Act>, dummy: nat, junk: Msg, i: nat)
    requires i <= |acts| && Run(acts[..i], dummy, junk).pop == LoadHead
    requires forall k | i <= k <= |acts| ::
      !Run(acts[..k], dummy, junk).pop.Idle? && !Run(acts[..k], dummy, junk).pop.Done?
    ensures Enabled(Run(acts, dummy, junk), DoPop)
    ensures OwnSteps(acts[i..]) + Rank(Run(acts, dummy, junk).pop) <= 5 && OwnSteps(acts[i..]) < 5
  {
    hide Step, Enabled;
    assert acts[..|acts|] == acts;
    assert !Run(acts[..|acts|], dummy, junk).pop.Idle?;
    RankStep(Run(acts, dummy, junk), DoReturn);
    if i < |acts| {
      var k := |acts| - 1;
      var before := acts[..k];
      forall x | i <= x <= k ensures acts[..x] == before[..x] {
      }
      PopIsWaitFree(before, dummy, junk, i);
      assert !Run(acts[..k], dummy, junk).pop.Idle?;
      RankStep(Run(before, dummy, junk), acts[k]);
      assert acts[i..][..|acts[i..]| - 1] == before[i..] && acts[i..][|acts[i..]| - 1] == acts[k];
    }
  }

  // ---------- What is available is returned ----------

  /** There is a node behind the dummy and the link to it is written. */
  ghost predicate Available(q: Queue, c: seq<Ptr>, n: Ptr) {
    |c| >= 2 && c[1] == n && NextOf(q.mem, c[0]) == n && n in q.mem.heap && n != Null
  }

  /** A call entered with data available is on its way to returning that data. */
  ghost predicate Heading(q: Queue, c: seq<Ptr>, data: Msg) {
    match q.pop
    case LoadHead => exists n :: Available(q, c, n) && SelfOf(q.mem.heap, n) == data
    case ReadNext(_) => exists n :: Available(q, c, n) && SelfOf(q.mem.heap, n) == data
    case StoreHead(_, n) => Available(q, c, n) && SelfOf(q.mem.heap, n) == data
    case ReadData(_, _) => q.taken == Some(data)
    case DeleteDummy(_, d) => d == data
    case Done(result) => result == Some(data)
    case Idle => false
  }

  lemma AvailableKept(q: Queue, c: seq<Ptr>, a: Act, n: Ptr)
    requires Inv(q, c) && Available(q, c, n) && (a.DoPush? || a.DoSend?)
    ensures Available(Step(q, a), ChainStep(q, c, a), n)
    ensures SelfOf(Step(q, a).mem.heap, n) == SelfOf(q.mem.heap, n)
  {
    hide Linked;
    if a.DoPush? && Enabled(q, a) {
      FirstKept(q.mem, c, Held(q), Producer(a.t));
      PushSelf(q.mem, Producer(a.t));
    }
    FirstLink(q.mem, c, Held(q));
  }

  lemma HeadingPop(q: Queue, c: seq<Ptr>, data: Msg)
    requires Inv(q, c) && Heading(q, c, data) && Enabled(q, DoPop)
    ensures Heading(Step(q, DoPop), ChainStep(q, c, DoPop), data)
  {
    hide Linked;
    FirstLink(q.mem, c, Held(q));
    if q.pop.LoadHead? || q.pop.ReadNext? {
      var n :| Available(q, c, n) && SelfOf(q.mem.heap, n) == data;
      assert Available(Step(q, DoPop), c, n);
    }
  }

  lemma HeadingStep(q: Queue, c: seq<Ptr>, a: Act, data: Msg)
    requires Inv(q, c) && Heading(q, c, data) && !Step(q, a).pop.Idle? && !a.DoCall?
    ensures Heading(Step(q, a), ChainStep(q, c, a), data)
  {
    hide Inv, Available;
    if a.DoPop? && Enabled(q, a) {
      HeadingPop(q, c, data);
    } else if a.DoPush? || a.DoSend? {
      if q.pop.LoadHead? || q.pop.ReadNext? {
        var n :| Available(q, c, n) && SelfOf(q.mem.heap, n) == data;
        AvailableKept(q, c, a, n);
      } else if q.pop.StoreHead? {
        AvailableKept(q, c, a, q.pop.n);
      }
    }
  }

  /** Data whose link is written when a call of `pop` is entered is what the call returns, whatever producers do. */
  lemma {:induction false} ReturnsAvailable(acts: seq<Act>, dummy: nat, junk: Msg, i: nat, n: Ptr)
    requires i <= |acts| && Run(acts[..i], dummy, junk).pop == LoadHead
    requires Available(Run(acts[..i], dummy, junk), ChainOf(acts[..i], dummy, junk), n)
    requires forall k | i <= k <= |acts| :: !Run(acts[..k], dummy, junk).pop.Idle?
    ensures var data := SelfOf(Run(acts[..i], dummy, junk).mem.heap, n);
      && Heading(Run(acts, dummy, junk), ChainOf(acts, dummy, junk), data)
      && (Run(acts, dummy, junk).pop.Done? ==> Run(acts, dummy, junk).pop == Done(Some(data)))
  {
    hide Inv, Step, ChainStep, Available;
    assert acts[..|acts|] == acts;
    if i < |acts| {
      var k := |acts| - 1;
      var before := acts[..k];
      forall x | i <= x <= k ensures acts[..x] == before[..x] {
      }
      ReturnsAvailable(before, dummy, junk, i, n);
      RefinesFifo(before, dummy, junk);
      assert !Run(acts[..k], dummy, junk).pop.Idle?;
      var q, c := Run(before, dummy, junk), ChainOf(before, dummy, junk);
      var data := SelfOf(Run(acts[..i], dummy, junk).mem.heap, n);
      if acts[k].DoCall? {
        CallDisabled(q, c);
      } else {
        HeadingStep(q, c, acts[k], data);
      }
    }
  }

  lemma CallDisabled(q: Queue, c: seq<Ptr>)
    requires !q.pop.Idle?
    ensures Step(q, DoCall) == q && ChainStep(q, c, DoCall) == c
  {
  }

  // ---------- What the answer "nothing" means ----------

  /** A producer has exchanged the tail right behind the dummy and still has to write the dummy's link. */
  ghost predicate HeadCut(q: Queue, c: seq<Ptr>) {
    |c| >= 1 && exists t :: Linking(q.mem, t) && t.Producer? && q.mem.pushes[t].prev == c[0]
  }

  ghost predicate EmptyOrCut(q: Queue, c: seq<Ptr>) {
    Contents(q, c) == [] || HeadCut(q, c)
  }

  lemma UnlinkedIsEmptyOrCut(q: Queue, c: seq<Ptr>)
    requires Inv(q, c) && NextOf(q.mem, c[0]) == Null
    ensures EmptyOrCut(q, c)
  {
    FirstLink(q.mem, c, Held(q));
    if |c| >= 2 {
      var t :| t in q.mem.pushes && q.mem.pushes[t] == Link(c[1], c[0]);
      assert Linking(q.mem, t) && t.Producer? && q.mem.pushes[t].prev == c[0];
    } else {
      assert Msgs(q.mem.heap, c[1..]) == [];
    }
  }

  lemma NothingStep(q: Queue, c: seq<Ptr>, a: Act)
    requires Inv(q, c) && q.pop != Done(None) && Step(q, a).pop == Done(None)
    ensures EmptyOrCut(q, c)
  {
    hide Linked;
    UnlinkedIsEmptyOrCut(q, c) by { assert q.pop.ReadNext?; }
  }

  /**
    `pop` answers that there is nothing only if at some moment of the call that was so, or the
    dummy's link was missing.
   */
  lemma {:induction false} NothingMeaning(acts: seq<Act>, dummy: nat, junk: Msg, i: nat)
    requires i <= |acts| && Run(acts[..i], dummy, junk).pop == LoadHead
    requires Run(acts, dummy, junk).pop == Done(None)
    ensures exists k :: i <= k <= |acts| && EmptyOrCut(Run(acts[..k], dummy, junk), ChainOf(acts[..k], dummy, junk))
  {
    hide Inv, Step, ChainStep, EmptyOrCut;
    assert acts[..|acts|] == acts;
    var k := |acts| - 1;
    var before := acts[..k];
    RefinesFifo(before, dummy, junk);
    if Run(before, dummy, junk).pop == Done(None) {
      forall x | 0 <= x <= k ensures acts[..x] == before[..x] {
      }
      NothingMeaning(before, dummy, junk, i);
      var x :| i <= x <= k && EmptyOrCut(Run(before[..x], dummy, junk), ChainOf(before[..x], dummy, junk));
      assert EmptyOrCut(Run(acts[..x], dummy, junk), ChainOf(acts[..x], dummy, junk));
    } else {
      NothingStep(Run(before, dummy, junk), ChainOf(before, dummy, junk), acts[k]);
      assert EmptyOrCut(Run(acts[..k], dummy, junk), ChainOf(acts[..k], dummy, junk));
    }
  }

  // ---------- An undisturbed pop ----------

  function PopAlone(q: Queue, steps: nat): Queue
    decreases steps
  {
    if steps == 0 then q else PopAlone(Step(q, DoPop), steps - 1)
  }

  function ChainAlone(q: Queue, c: seq<Ptr>, steps: nat): seq<Ptr>
    decreases steps
  {
    if steps == 0 then c else ChainAlone(Step(q, DoPop), ChainStep(q, c, DoPop), steps - 1)
  }

  ghost predicate ProducerLinking(m: Mem) {
    exists t :: Linking(m, t) && t.Producer?
  }

  lemma {:induction false} AloneKeeps(q: Queue, c: seq<Ptr>, steps: nat)
    requires Inv(q, c)
    ensures Inv(PopAlone(q, steps), ChainAlone(q, c, steps)) && PopAlone(q, steps).mem.pushes == q.mem.pushes
    decreases steps
  {
    hide Inv, Step, ChainStep;
    if steps > 0 {
      StepKeeps(q, c, DoPop);
      PopFrame(q, DoPop);
      AloneKeeps(Step(q, DoPop), ChainStep(q, c, DoPop), steps - 1);
    }
  }

  /**
    With no link missing, `pop` takes the oldest data, or answers that there is nothing
    exactly on an empty queue.
   */
  lemma UndisturbedPop(q: Queue, c: seq<Ptr>)
    requires Inv(q, c) && q.pop == LoadHead && !ProducerLinking(q.mem)
    ensures var q', c', items := PopAlone(q, 5), ChainAlone(q, c, 5), Contents(q, c);
      && Inv(q', c') && q'.mem.pushes == q.mem.pushes
      && q'.pop == Done(if items == [] then None else Some(items[0]))
      && Contents(q', c') == (if items == [] then [] else items[1..])
  {
    AloneKeeps(q, c, 5);
    var q1 := Step(q, DoPop);
    var q2 := Step(q1, DoPop);
    PopAloneFive(q, c);
    if Contents(q, c) == [] {
      ContentsSize(q, c);
      FirstLink(q.mem, c, Held(q));
      assert q2.pop == Done(None) && Contents(q2, c) == [];
    } else {
      FullPop(q, c);
    }
  }

  /** Without a stub, every node behind the first holds data. */
  lemma OneMessageANode(heap: map<Ptr, Cell>, c: seq<Ptr>)
    requires Stub !in c
    ensures |Msgs(heap, c)| == |c|
  {
  }

  lemma ContentsSize(q: Queue, c: seq<Ptr>)
    requires Inv(q, c)
    ensures |Contents(q, c)| == |c| - 1
  {
    assert forall x | x in c[1..] :: x in c;
    OneMessageANode(q.mem.heap, c[1..]);
  }

  lemma PopAloneFive(q: Queue, c: seq<Ptr>)
    ensures var q1, c1 := Step(q, DoPop), ChainStep(q, c, DoPop);
      var q2, c2 := Step(q1, DoPop), ChainStep(q1, c1, DoPop);
      var q3, c3 := Step(q2, DoPop), ChainStep(q2, c2, DoPop);
      var q4, c4 := Step(q3, DoPop), ChainStep(q3, c3, DoPop);
      PopAlone(q, 5) == Step(q4, DoPop) && ChainAlone(q, c, 5) == ChainStep(q4, c4, DoPop)
  {
    hide Step, ChainStep;
    var q1, c1 := Step(q, DoPop), ChainStep(q, c, DoPop);
    var q2, c2 := Step(q1, DoPop), ChainStep(q1, c1, DoPop);
    var q3, c3 := Step(q2, DoPop), ChainStep(q2, c2, DoPop);
    var q4, c4 := Step(q3, DoPop), ChainStep(q3, c3, DoPop);
    assert PopAlone(q, 5) == PopAlone(q1, 4) == PopAlone(q2, 3) == PopAlone(q3, 2) == PopAlone(q4, 1)
        == PopAlone(Step(q4, DoPop), 0);
    assert ChainAlone(q, c, 5) == ChainAlone(q1, c1, 4) == ChainAlone(q2, c2, 3) == ChainAlone(q3, c3, 2)
        == ChainAlone(q4, c4, 1) == ChainAlone(Step(q4, DoPop), ChainStep(q4, c4, DoPop), 0);
  }

  lemma FullPop(q: Queue, c: seq<Ptr>)
    requires Inv(q, c) && q.pop == LoadHead && !ProducerLinking(q.mem) && Contents(q, c) != []
    ensures var q', c' := PopAlone(q, 5), ChainAlone(q, c, 5);
      q'.pop == Done(Some(Contents(q, c)[0])) && Contents(q', c') == Contents(q, c)[1..]
  {
    hide Linked, Msgs;
    FirstLink(q.mem, c, Held(q));
    Nonempty(q, c);
    PopAloneFive(q, c);
    var q1, q2 := Step(q, DoPop), Step(Step(q, DoPop), DoPop);
    StepKeeps(q, c, DoPop);
    StepKeeps(q1, c, DoPop);
    assert q2.pop == StoreHead(c[0], c[1]);
    var q3, c3 := Step(q2, DoPop), ChainStep(q2, c, DoPop);
    StepKeeps(q2, c, DoPop);
    StepKeeps(q3, c3, DoPop);
    StepKeeps(Step(q3, DoPop), c3, DoPop);
  }

  lemma Nonempty(q: Queue, c: seq<Ptr>)
    requires Inv(q, c) && !ProducerLinking(q.mem) && Contents(q, c) != []
    ensures |c| >= 2 && NextOf(q.mem, c[0]) == c[1] != Null
  {
    hide Linked;
    ContentsSize(q, c);
    FirstLink(q.mem, c, Held(q));
    assert !HeadCut(q, c);
    LinkWritten(q, c);
  }

  lemma LinkWritten(q: Queue, c: seq<Ptr>)
    requires Inv(q, c) && Contents(q, c) != [] && !HeadCut(q, c)
    ensures NextOf(q.mem, c[0]) != Null
  {
    hide Inv, HeadCut;
    if NextOf(q.mem, c[0]) == Null {
      UnlinkedIsEmptyOrCut(q, c);
    }
  }

  // ---------- Memory safety, stated by addresses ----------

  /** The nodes that the rest of a call of `pop` reads or deletes, apart from the head it has yet to load. */
  function Uses(pc: PopPc): set<Ptr> {
    match pc
    case ReadNext(h) => {h}
    case StoreHead(h, n) => {h, n}
    case ReadData(h, n) => {h, n}
    case DeleteDummy(h, _) => {h}
    case _ => {}
  }

  /** In every state of every run, whatever a thread reads, writes or deletes next is allocated. */
  lemma AccessesAllocated(acts: seq<Act>, dummy: nat, junk: Msg)
    ensures var q := Run(acts, dummy, junk);
      && (forall t | t in q.mem.pushes :: Target(q.mem.pushes[t]) in q.mem.heap)
      && q.head in q.mem.heap && Uses(q.pop) <= q.mem.heap.Keys
  {
    RefinesFifo(acts, dummy, junk);
    var q, c := Run(acts, dummy, junk), ChainOf(acts, dummy, junk);
    FirstLink(q.mem, c, Held(q));
    HeldOff(q.mem, c, Held(q));
    forall t | t in q.mem.pushes ensures Target(q.mem.pushes[t]) in q.mem.heap {
      assert PushOk(q.mem, c, Held(q), q.mem.pushes[t]);
    }
  }

  // ---------- What producers send ----------

  /** The messages whose pushes have been begun. */
  function Begun(acts: seq<Act>, dummy: nat, junk: Msg): seq<Sent> {
    if acts == [] then []
    else
      var k := |acts| - 1;
      var q := Run(acts[..k], dummy, junk);
      Begun(acts[..k], dummy, junk)
      + if acts[k].DoSend? && Enabled(q, acts[k]) then [Sent(acts[k].t, acts[k].data)] else []
  }

  /** The messages exchanged, as the queue's history has them, and by whom. */
  function Exchanged(acts: seq<Act>, dummy: nat, junk: Msg): seq<Sent> {
    if acts == [] then []
    else
      var k := |acts| - 1;
      var q := Run(acts[..k], dummy, junk);
      Exchanged(acts[..k], dummy, junk)
      + if acts[k].DoPush? && EventOf(q, acts[k]).Enq? then [Sent(acts[k].t, EventOf(q, acts[k]).item)] else []
  }

  lemma OthersFrame(q: Queue, c: seq<Ptr>, a: Act)
    requires Inv(q, c) && !a.DoSend? && !a.DoPush?
    ensures Step(q, a).mem.pushes == q.mem.pushes
    ensures forall t | t in q.mem.pushes && !q.mem.pushes[t].Link? ::
      SelfOf(Step(q, a).mem.heap, q.mem.pushes[t].node) == SelfOf(q.mem.heap, q.mem.pushes[t].node)
  {
    Entering(q, c);
    PopFrame(q, a);
  }

  lemma EnteringStep(q: Queue, c: seq<Ptr>, a: Act, begun: seq<Sent>, sent: seq<Sent>)
    requires Inv(q, c) && InOrder(begun, sent, q.mem)
    ensures InOrder(begun + if a.DoSend? && Enabled(q, a) then [Sent(a.t, a.data)] else [],
                    sent + if a.DoPush? && EventOf(q, a).Enq? then [Sent(a.t, EventOf(q, a).item)] else [],
                    Step(q, a).mem)
  {
    hide InOrder, Inv, PopStep;
    Entering(q, c);
    assert begun + [] == begun && sent + [] == sent;
    if Enabled(q, a) {
      match a
      case DoSend(t, n, msg, junk) => OrderBegin(begun, sent, q.mem, t, n, msg, junk);
      case DoPush(t) => OrderPush(begun, sent, q.mem, t);
      case _ =>
        OthersFrame(q, c, a);
        OrderFrame(begun, sent, q.mem, Step(q, a).mem);
    }
  }

  lemma {:induction false} OrderAlways(acts: seq<Act>, dummy: nat, junk: Msg)
    ensures InOrder(Begun(acts, dummy, junk), Exchanged(acts, dummy, junk), Run(acts, dummy, junk).mem)
  {
    hide Step, InOrder, Inv, EventOf;
    if acts == [] {
      assert InOrder([], [], Run([], dummy, junk).mem) by { NobodySends(dummy, junk); }
    } else {
      var k := |acts| - 1;
      var q, c := Run(acts[..k], dummy, junk), ChainOf(acts[..k], dummy, junk);
      RefinesFifo(acts[..k], dummy, junk);
      OrderAlways(acts[..k], dummy, junk);
      EnteringStep(q, c, acts[k], Begun(acts[..k], dummy, junk), Exchanged(acts[..k], dummy, junk));
    }
  }

  lemma NobodySends(dummy: nat, junk: Msg)
    ensures InOrder([], [], Run([], dummy, junk).mem)
  {
  }

  lemma {:induction false} EnqueuedIsExchanged(acts: seq<Act>, dummy: nat, junk: Msg)
    ensures Messages(Exchanged(acts, dummy, junk)) == Enqueued(Trace(acts, dummy, junk))
  {
    if acts != [] {
      hide Run, Step, EventOf, Messages;
      var k := |acts| - 1;
      var before, es := acts[..k], Trace(acts, dummy, junk);
      EnqueuedIsExchanged(before, dummy, junk);
      TraceLength(before, dummy, junk);
      assert es[..k] == Trace(before, dummy, junk);
      var q := Run(before, dummy, junk);
      OnlyPushesEnqueue(q, acts[k]);
      if EventOf(q, acts[k]).Enq? {
        MessagesAppend(Exchanged(before, dummy, junk), Sent(acts[k].t, EventOf(q, acts[k]).item));
      }
    } else {
      assert Messages([]) == [];
    }
  }

  lemma OnlyPushesEnqueue(q: Queue, a: Act)
    ensures EventOf(q, a).Enq? ==> a.DoPush?
  {
  }

  lemma {:induction false} TraceLength(acts: seq<Act>, dummy: nat, junk: Msg)
    ensures |Trace(acts, dummy, junk)| == |acts|
  {
    if acts != [] {
      TraceLength(acts[..|acts| - 1], dummy, junk);
    }
  }

  /**
    What the queue's history says was enqueued is what producers were given to push: each
    producer's messages, in the order in which it began to push them, all but at most the last.
   */
  lemma EnqueuesWhatWasSent(acts: seq<Act>, dummy: nat, junk: Msg, p: nat)
    ensures Messages(Exchanged(acts, dummy, junk)) == Enqueued(Trace(acts, dummy, junk))
    ensures var begun, sent := Begun(acts, dummy, junk), Exchanged(acts, dummy, junk);
      && By(sent, p) <= By(begun, p) && |By(begun, p)| <= |By(sent, p)| + 1
      && (Producer(p) !in Run(acts, dummy, junk).mem.pushes ==> By(sent, p) == By(begun, p))
  {
    OrderAlways(acts, dummy, junk);
    EnqueuedIsExchanged(acts, dummy, junk);
    SentInOrder(Begun(acts, dummy, junk), Exchanged(acts, dummy, junk), Run(acts, dummy, junk).mem, 0, p);
  }
}
