/**
  Whole runs of `IntMpscQueue`: every interleaving of any producers with the consumer,
  whose caller may delete each node it received.
 */
module IntMpscRuns {
  import opened MpscMemory
  import opened Fifo
  import opened IntMpscSteps

  datatype Act =
    | DoSend(t: nat, n: Ptr, msg: Msg, junk: Ptr)   // allocate a node and enter push
    | DoPush(t: nat)                                // one step of that push
    | DoCall                                        // enter pop
    | DoPop                                         // one step of pop
    | DoReturn                                      // leave pop
    | DoDelete(n: Ptr)                              // delete a node received earlier

  predicate Enabled(q: Queue, a: Act) {
    match a
    case DoSend(t, n, _, _) => Producer(t) !in q.mem.pushes && n.Node? && n !in q.mem.heap
    case DoPush(t) => Producer(t) in q.mem.pushes
    case DoCall => q.pop.Idle?
    case DoPop => CanPop(q)
    case DoReturn => q.pop.Done?
    case DoDelete(n) => n in q.out && q.pop != Done(n)
  }

  /** A step that is not enabled does not happen. */
  function Step(q: Queue, a: Act): Queue {
    if !Enabled(q, a) then q else
    match a
    case DoSend(t, n, msg, junk) => q.(mem := StartPush(Allocate(q.mem, n, msg, junk), Producer(t), n))
    case DoPush(t) => q.(mem := PushStep(q.mem, Producer(t)))
    case DoCall => q.(pop := LoadHead)
    case DoPop => PopStep(q)
    case DoReturn => q.(pop := Idle)
    case DoDelete(n) => Delete(q, n)
  }

  function ChainStep(q: Queue, c: seq<Ptr>, a: Act): seq<Ptr> {
    if !Enabled(q, a) then c else
    match a
    case DoPush(t) => PushChain(q.mem, c, Producer(t))
    case DoPop => PopChain(q, c)
    case _ => c
  }

  /** A push takes effect at its exchange, a pop when it stores the head. */
  function EventOf(q: Queue, a: Act): Event<Msg> {
    if !Enabled(q, a) then Internal else
    match a
    case DoPush(t) => PushEvent(q, Producer(t))
    case DoPop => PopEvent(q)
    case _ => Internal
  }

  function Run(acts: seq<Act>, stubSelf: Msg): Queue {
    if acts == [] then Init(stubSelf)
    else Step(Run(acts[..|acts| - 1], stubSelf), acts[|acts| - 1])
  }

  function ChainOf(acts: seq<Act>, stubSelf: Msg): seq<Ptr> {
    if acts == [] then [Stub]
    else
      var k := |acts| - 1;
      ChainStep(Run(acts[..k], stubSelf), ChainOf(acts[..k], stubSelf), acts[k])
  }

  function Trace(acts: seq<Act>, stubSelf: Msg): seq<Event<Msg>> {
    if acts == [] then []
    else
      var k := |acts| - 1;
      Trace(acts[..k], stubSelf) + [EventOf(Run(acts[..k], stubSelf), acts[k])]
  }

  // ---------- Shape and refinement ----------

  lemma InitInv(stubSelf: Msg)
    ensures Inv(Init(stubSelf), [Stub]) && Contents(Init(stubSelf), [Stub]) == []
  {
    assert Held(Init(stubSelf), [Stub]) == {};
    assert Msgs(Init(stubSelf).mem.heap, [Stub][1..]) == [];
  }

  /** Every single step keeps the shape and is one the FIFO allows. */
  lemma StepKeeps(q: Queue, c: seq<Ptr>, a: Act)
    requires Inv(q, c)
    ensures Inv(Step(q, a), ChainStep(q, c, a))
    ensures Allows(Contents(q, c), EventOf(q, a), Contents(Step(q, a), ChainStep(q, c, a)))
  {
    if Enabled(q, a) {
      match a
      case DoSend(t, n, msg, junk) => SendKeeps(q, c, Producer(t), n, msg, junk);
      case DoPush(t) => PushStepKeeps(q, c, Producer(t));
      case DoCall => assert Held(Step(q, a), c) == Held(q, c);
      case DoPop => PopStepKeeps(q, c);
      case DoReturn => assert Held(Step(q, a), c) == Held(q, c);
      case DoDelete(n) => DeleteKeeps(q, c, n);
    }
  }

  lemma {:induction false} ShapeAlways(acts: seq<Act>, stubSelf: Msg)
    ensures Inv(Run(acts, stubSelf), ChainOf(acts, stubSelf))
  {
    if acts == [] {
      InitInv(stubSelf);
    } else {
      var k := |acts| - 1;
      ShapeAlways(acts[..k], stubSelf);
      StepKeeps(Run(acts[..k], stubSelf), ChainOf(acts[..k], stubSelf), acts[k]);
    }
  }

  /** The history of every run is a history of the FIFO, which ends with what is queued. */
  lemma {:induction false} RefinesFifo(acts: seq<Act>, stubSelf: Msg)
    ensures Replay(Trace(acts, stubSelf)) == Some(Contents(Run(acts, stubSelf), ChainOf(acts, stubSelf)))
  {
    if acts == [] {
      InitInv(stubSelf);
    } else {
      var k := |acts| - 1;
      var q, c := Run(acts[..k], stubSelf), ChainOf(acts[..k], stubSelf);
      RefinesFifo(acts[..k], stubSelf);
      ShapeAlways(acts[..k], stubSelf);
      StepKeeps(q, c, acts[k]);
      ReplayExtend(Trace(acts[..k], stubSelf), Contents(q, c), EventOf(q, acts[k]),
                   Contents(Run(acts, stubSelf), ChainOf(acts, stubSelf)));
    }
  }

  /** Over every run: exchanged messages, in order, are the popped ones followed by the queued ones. */
  lemma NothingLost(acts: seq<Act>, stubSelf: Msg)
    ensures Enqueued(Trace(acts, stubSelf))
         == Dequeued(Trace(acts, stubSelf)) + Contents(Run(acts, stubSelf), ChainOf(acts, stubSelf))
  {
    RefinesFifo(acts, stubSelf);
    FifoConserves(Trace(acts, stubSelf));
  }

  // ---------- Safe reclamation ----------

  /**
    What `pop` handed out is never the stub, is off the chain in every way that a
    thread could follow, and no thread has ever touched freed memory.
   */
  lemma SafeReclamation(acts: seq<Act>, stubSelf: Msg, r: Ptr)
    requires r in Run(acts, stubSelf).out
    ensures var q, c := Run(acts, stubSelf), ChainOf(acts, stubSelf);
      && !q.mem.fault
      && r.Node? && r in q.mem.heap
      && r != q.head && r != q.mem.tail
      && (forall x | x in c :: NextOf(q.mem, x) != r)
      && (forall t | t in q.mem.pushes :: q.mem.pushes[t].node != r)
      && (forall t | t in q.mem.pushes && q.mem.pushes[t].Link? :: q.mem.pushes[t].prev != r)
  {
    ShapeAlways(acts, stubSelf);
    var q, c := Run(acts, stubSelf), ChainOf(acts, stubSelf);
    var held := Held(q, c);
    assert r in held;
    HeldNotPushed(q.mem, c, held, r);
    forall x | x in c ensures NextOf(q.mem, x) != r {
      ChainNext(q.mem, c, held, x);
    }
    forall t | t in q.mem.pushes && q.mem.pushes[t].Link? ensures q.mem.pushes[t].prev != r {
      assert PushOk(q.mem, c, held, q.mem.pushes[t]);
      assert q.mem.pushes[t].prev in c;
    }
    assert c[0] in c && c[|c| - 1] in c;
  }

  /** Links of chain nodes lead to the next chain node or nowhere. */
  lemma ChainNext(m: Mem, c: seq<Ptr>, held: set<Ptr>, x: Ptr)
    requires Linked(m, c, held) && x in c
    ensures NextOf(m, x) == Null || (NextOf(m, x) in c && Adjacent(c, x, NextOf(m, x)))
  {
    var i :| 0 <= i < |c| && c[i] == x;
    if i + 1 < |c| {
      var j := i + 1;
      assert LinkOk(m, c[i], c[j]);
      assert Adjacent(c, c[i], c[j]);
    }
  }

  /** Once idle, no allocated node is lost track of: stub, queued, or waiting for its deletion. */
  lemma NoLeak(acts: seq<Act>, stubSelf: Msg)
    requires Run(acts, stubSelf).mem.pushes == map[]
    ensures var q, c := Run(acts, stubSelf), ChainOf(acts, stubSelf);
      q.mem.heap.Keys == {Stub} + (set x | x in c) + q.out
  {
    ShapeAlways(acts, stubSelf);
    var q, c := Run(acts, stubSelf), ChainOf(acts, stubSelf);
    assert forall x | x in q.mem.heap :: Accounted(q.mem, c, Held(q, c), x);
  }

  /**
    Missing links and pushes between exchange and link correspond one to one: a
    pair of neighbours is unlinked exactly when one push is about to link it, and
    every such push is about to link one pair of neighbours.
   */
  lemma MissingLinks(acts: seq<Act>, stubSelf: Msg, a: Ptr, b: Ptr)
    requires Adjacent(ChainOf(acts, stubSelf), a, b)
    ensures var m := Run(acts, stubSelf).mem;
      && (NextOf(m, a) == b || NextOf(m, a) == Null)
      && (NextOf(m, a) == Null <==> exists t :: t in m.pushes && m.pushes[t] == Link(b, a))
      && (forall t, u | t in m.pushes && u in m.pushes && m.pushes[t] == Link(b, a) && m.pushes[u] == Link(b, a) ::
            t == u)
  {
    ShapeAlways(acts, stubSelf);
    var q, c := Run(acts, stubSelf), ChainOf(acts, stubSelf);
    var i, j :| 0 <= i < |c| && 0 <= j < |c| && j == i + 1 && c[i] == a && c[j] == b;
    assert LinkOk(q.mem, c[i], c[j]);
    assert b in c;
    forall t | t in q.mem.pushes && q.mem.pushes[t] == Link(b, a) ensures NextOf(q.mem, a) == Null {
      assert PushOk(q.mem, c, Held(q, c), q.mem.pushes[t]);
    }
  }

  lemma EveryLinkingPushMissesALink(acts: seq<Act>, stubSelf: Msg, t: Thread)
    requires Linking(Run(acts, stubSelf).mem, t)
    ensures var m := Run(acts, stubSelf).mem;
      Adjacent(ChainOf(acts, stubSelf), m.pushes[t].prev, m.pushes[t].node) && NextOf(m, m.pushes[t].prev) == Null
  {
    ShapeAlways(acts, stubSelf);
    var q, c := Run(acts, stubSelf), ChainOf(acts, stubSelf);
    assert PushOk(q.mem, c, Held(q, c), q.mem.pushes[t]);
  }

  /** When `pop` re-pushes the stub, nothing points into or out of it that could be lost. */
  lemma StubOffChainWhenCleared(acts: seq<Act>, stubSelf: Msg)
    requires Run(acts, stubSelf).pop.PushStub?
    requires var m := Run(acts, stubSelf).mem; Consumer in m.pushes && m.pushes[Consumer].Clear?
    ensures var q, c := Run(acts, stubSelf), ChainOf(acts, stubSelf);
      && q.mem.pushes[Consumer].node == Stub
      && Stub !in c
      && (forall x | x in c :: NextOf(q.mem, x) != Stub)
      && (forall t | t in q.mem.pushes && q.mem.pushes[t].Link? ::
            q.mem.pushes[t].prev != Stub && q.mem.pushes[t].node != Stub)
  {
    ShapeAlways(acts, stubSelf);
    var q, c := Run(acts, stubSelf), ChainOf(acts, stubSelf);
    assert PushOk(q.mem, c, Held(q, c), q.mem.pushes[Consumer]);
    forall x | x in c ensures NextOf(q.mem, x) != Stub {
      ChainNext(q.mem, c, Held(q, c), x);
    }
    forall t | t in q.mem.pushes && q.mem.pushes[t].Link?
      ensures q.mem.pushes[t].prev != Stub && q.mem.pushes[t].node != Stub
    {
      assert PushOk(q.mem, c, Held(q, c), q.mem.pushes[t]);
      assert q.mem.pushes[t].prev in c;
    }
  }

  // ---------- What a null result means ----------

  ghost predicate ProducerLinking(m: Mem) {
    exists t :: Linking(m, t) && t.Producer?
  }

  /** A producer has exchanged the tail right behind the node at the head and still has to write that node's link. */
  ghost predicate HeadCut(q: Queue, c: seq<Ptr>) {
    |c| >= 1 && exists t :: Linking(q.mem, t) && t.Producer? && q.mem.pushes[t].prev == c[0]
  }

  /** There is no payload, or the link of the node at the head is missing. */
  ghost predicate EmptyOrCut(q: Queue, c: seq<Ptr>) {
    Contents(q, c) == [] || HeadCut(q, c)
  }

  lemma CutIsLinking(q: Queue, c: seq<Ptr>)
    ensures HeadCut(q, c) ==> ProducerLinking(q.mem)
  {
    if HeadCut(q, c) {
      var t :| Linking(q.mem, t) && t.Producer? && q.mem.pushes[t].prev == c[0];
      assert Linking(q.mem, t);
    }
  }

  /** What `pop` knows while no state of the call was empty or cut. */
  ghost predicate Tight(q: Queue, c: seq<Ptr>) {
    (q.pop.LoadTail? ==> |c| == 1) && q.pop != Done(Null)
  }

  /** An unlinked first node with others behind it is what a producer still has to link. */
  lemma UnlinkedIsCut(q: Queue, c: seq<Ptr>)
    requires Inv(q, c) && !q.pop.PushStub?
    requires NextOf(q.mem, c[0]) == Null && |c| >= 2
    ensures HeadCut(q, c)
  {
    FirstLink(q.mem, c, Held(q, c));
    var t :| t in q.mem.pushes && q.mem.pushes[t] == Link(c[1], c[0]);
    assert Linking(q.mem, t) && t.Producer? && q.mem.pushes[t].prev == c[0];
  }

  /** An unlinked first node that no producer is about to link is the only one. */
  lemma FirstUnlinked(q: Queue, c: seq<Ptr>)
    requires Inv(q, c) && !q.pop.PushStub?
    requires NextOf(q.mem, c[0]) == Null && !HeadCut(q, c)
    ensures |c| == 1
    ensures c[0] == Stub ==> Contents(q, c) == []
  {
    if |c| >= 2 {
      UnlinkedIsCut(q, c);
    }
    assert Msgs(q.mem.heap, c[1..]) == [];
  }

  lemma TightPop(q: Queue, c: seq<Ptr>)
    requires Inv(q, c) && CanPop(q) && Tight(q, c) && !EmptyOrCut(q, c)
    ensures Tight(PopStep(q), PopChain(q, c))
    ensures Contents(PopStep(q), PopChain(q, c)) == [] ==> PopStep(q).pop.Done?
  {
    hide PushStep, HeadCut;
    PopStepKeeps(q, c);
    assert c[0] in c;
    if (q.pop.ReadNext? || q.pop.ReadNextAfterSkip? || q.pop.ReadNextAfterPush?) && NextOf(q.mem, c[0]) == Null {
      FirstUnlinked(q, c);
    }
  }

  /** A step of `pop` puts no producer between exchange and link. */
  lemma NoNewLinking(q: Queue)
    requires CanPop(q)
    ensures ProducerLinking(PopStep(q).mem) ==> ProducerLinking(q.mem)
  {
    if ProducerLinking(PopStep(q).mem) {
      var t :| Linking(PopStep(q).mem, t) && t.Producer?;
      assert Linking(q.mem, t);
    }
  }

  lemma TightStep(q: Queue, c: seq<Ptr>, a: Act)
    requires Inv(q, c) && Tight(q, c) && !EmptyOrCut(q, c)
    requires !q.pop.Idle? && !Step(q, a).pop.Idle? && !EmptyOrCut(Step(q, a), ChainStep(q, c, a))
    ensures Tight(Step(q, a), ChainStep(q, c, a))
  {
    StepKeeps(q, c, a);
    if Enabled(q, a) {
      match a
      case DoPop => TightPop(q, c);
      case DoPush(t) =>
        if Exchanges(q.mem, Producer(t)) {
          var q' := Step(q, a);
          assert Linking(q'.mem, Producer(t)) && q'.mem.pushes[Producer(t)].prev == q.mem.tail;
          assert |c| == 1 ==> HeadCut(q', ChainStep(q, c, a));
        }
      case DoSend(_, _, _, _) =>
      case DoDelete(_) =>
    }
  }

  lemma TightAtEntry(q: Queue, c: seq<Ptr>)
    requires q.pop == LoadHead
    ensures Tight(q, c)
  {
  }

  lemma {:induction false} TightThrough(acts: seq<Act>, stubSelf: Msg, i: nat)
    requires i <= |acts|
    requires Run(acts[..i], stubSelf).pop == LoadHead
    requires forall k | i <= k <= |acts| :: !Run(acts[..k], stubSelf).pop.Idle?
    requires forall k | i <= k <= |acts| :: !EmptyOrCut(Run(acts[..k], stubSelf), ChainOf(acts[..k], stubSelf))
    ensures Tight(Run(acts, stubSelf), ChainOf(acts, stubSelf))
  {
    hide Inv, Step, ChainStep, Tight, EmptyOrCut;
    assert acts[..|acts|] == acts;
    if i == |acts| {
      TightAtEntry(Run(acts, stubSelf), ChainOf(acts, stubSelf));
    } else {
      var k := |acts| - 1;
      var before := acts[..k];
      forall x | i <= x <= k ensures acts[..x] == before[..x] {}
      TightThrough(before, stubSelf, i);
      ShapeAlways(before, stubSelf);
      assert !EmptyOrCut(Run(acts[..k], stubSelf), ChainOf(acts[..k], stubSelf));
      TightStep(Run(before, stubSelf), ChainOf(before, stubSelf), acts[k]);
    }
  }

  /**
    `pop` returns null only if at some moment of that call there was no payload or
    the link of the node then at the head was missing, some producer being about to
    write it.  The call is entered in the state after `i` steps and returns null in the
    state after all of them.
   */
  lemma NullPopMeaning(acts: seq<Act>, stubSelf: Msg, i: nat)
    requires i <= |acts|
    requires Run(acts[..i], stubSelf).pop == LoadHead
    requires forall k | i <= k <= |acts| :: !Run(acts[..k], stubSelf).pop.Idle?
    requires Run(acts, stubSelf).pop == Done(Null)
    ensures exists k :: i <= k <= |acts| && EmptyOrCut(Run(acts[..k], stubSelf), ChainOf(acts[..k], stubSelf))
  {
    if forall k | i <= k <= |acts| :: !EmptyOrCut(Run(acts[..k], stubSelf), ChainOf(acts[..k], stubSelf)) {
      TightThrough(acts, stubSelf, i);
      assert false;
    }
  }

  // ---------- An undisturbed pop ----------

  /** Steps of `pop` still to come when no producer interferes. */
  function Rank(q: Queue): nat {
    match q.pop
    case Idle => 0
    case LoadHead => 10
    case ReadNext(_) => 9
    case SkipStub(_) => 8
    case ReadNextAfterSkip(_) => 7
    case LoadTail(_) => 6
    case PushStub(_) => if Linking(q.mem, Consumer) then 3 else if Exchanges(q.mem, Consumer) then 4 else 5
    case ReadNextAfterPush(_) => 2
    case StoreHead(_, _) => 1
    case Done(_) => 0
  }

  lemma RankDrops(q: Queue, c: seq<Ptr>)
    requires Inv(q, c) && CanPop(q)
    ensures Rank(PopStep(q)) < Rank(q)
  {
  }

  /**
    Whatever other threads do, the consumer is never blocked inside `pop`, and only its own steps
    bring it closer to the end.
   */
  lemma RankStep(q: Queue, c: seq<Ptr>, a: Act)
    requires Inv(q, c) && !q.pop.Idle? && !q.pop.Done?
    ensures CanPop(q) && Rank(q) >= 1
    ensures a.DoPop? ==> Rank(Step(q, a)) + 1 <= Rank(q)
    ensures !a.DoPop? ==> Rank(Step(q, a)) == Rank(q)
  {
    hide Linked;
    if a.DoPop? {
      RankDrops(q, c);
    }
  }

  /** The consumer's steps among some actions. */
  function OwnSteps(acts: seq<Act>): nat {
    if acts == [] then 0 else OwnSteps(acts[..|acts| - 1]) + if acts[|acts| - 1].DoPop? then 1 else 0
  }

  /**
    A call of `pop` is never blocked and returns within ten steps of its own, however
    the producers interfere: while it has not returned it has made fewer than ten.
   */
  lemma {:induction false} PopIsWaitFree(acts: seq<Act>, stubSelf: Msg, i: nat)
    requires i <= |acts| && Run(acts[..i], stubSelf).pop == LoadHead
    requires forall k | i <= k <= |acts| :: !Run(acts[..k], stubSelf).pop.Idle? && !Run(acts[..k], stubSelf).pop.Done?
    ensures CanPop(Run(acts, stubSelf))
    ensures OwnSteps(acts[i..]) + Rank(Run(acts, stubSelf)) <= 10 && OwnSteps(acts[i..]) < 10
  {
    hide Inv, Step, CanPop, Rank;
    assert acts[..|acts|] == acts;
    ShapeAlways(acts, stubSelf);
    RankStep(Run(acts, stubSelf), ChainOf(acts, stubSelf), DoReturn);
    if i == |acts| {
      AtEntry(Run(acts, stubSelf));
    } else {
      var k := |acts| - 1;
      var before := acts[..k];
      forall x | i <= x <= k ensures acts[..x] == before[..x] {
      }
      PopIsWaitFree(before, stubSelf, i);
      ShapeAlways(before, stubSelf);
      RankStep(Run(before, stubSelf), ChainOf(before, stubSelf), acts[k]);
      assert acts[i..][..|acts[i..]| - 1] == before[i..] && acts[i..][|acts[i..]| - 1] == acts[k];
    }
  }

  lemma AtEntry(q: Queue)
    requires q.pop == LoadHead
    ensures Rank(q) == 10
  {
  }

  function PopAlone(q: Queue, steps: nat): Queue
    decreases steps
  {
    if steps == 0 || !CanPop(q) then q else PopAlone(PopStep(q), steps - 1)
  }

  function ChainAlone(q: Queue, c: seq<Ptr>, steps: nat): seq<Ptr>
    decreases steps
  {
    if steps == 0 || !CanPop(q) then c else ChainAlone(PopStep(q), PopChain(q, c), steps - 1)
  }

  /** The last step takes the oldest payload, every other one leaves the content as it is. */
  lemma TightPopContents(q: Queue, c: seq<Ptr>)
    requires Inv(q, c) && CanPop(q) && Tight(q, c) && !EmptyOrCut(q, c)
    ensures var q', c' := PopStep(q), PopChain(q, c);
      if q'.pop.Done? then
        && q'.pop.result in q'.out
        && SelfOf(q'.mem.heap, q'.pop.result) == Contents(q, c)[0]
        && Contents(q', c') == Contents(q, c)[1..]
      else Contents(q', c') == Contents(q, c)
  {
    PopStepKeeps(q, c);
    TightPop(q, c);
  }

  lemma {:induction false} PopAloneFrom(q: Queue, c: seq<Ptr>, steps: nat)
    requires Inv(q, c) && CanPop(q) && Tight(q, c)
    requires Contents(q, c) != [] && !ProducerLinking(q.mem) && Rank(q) <= steps
    ensures var q', c' := PopAlone(q, steps), ChainAlone(q, c, steps);
      && Inv(q', c') && !ProducerLinking(q'.mem)
      && q'.pop.Done? && q'.pop.result in q'.out
      && SelfOf(q'.mem.heap, q'.pop.result) == Contents(q, c)[0]
      && Contents(q', c') == Contents(q, c)[1..]
    decreases steps
  {
    hide Linked, PopOk, StubOk, Msgs, PopEvent, HeadCut;
    var q1, c1 := PopStep(q), PopChain(q, c);
    CutIsLinking(q, c);
    NoNewLinking(q);
    RankDrops(q, c);
    TightPopContents(q, c);
    assert Inv(q1, c1) && Tight(q1, c1) && !ProducerLinking(q1.mem) && (Contents(q1, c1) == [] ==> q1.pop.Done?) by {
      PopStepKeeps(q, c);
      TightPop(q, c);
    }
    if q1.pop.Done? {
      assert PopAlone(q1, steps - 1) == q1 && ChainAlone(q1, c1, steps - 1) == c1;
    } else {
      assert CanPop(q1);
      PopAloneFrom(q1, c1, steps - 1);
    }
  }

  lemma EmptyChain(q: Queue, c: seq<Ptr>)
    requires Inv(q, c) && Contents(q, c) == []
    ensures c == [Stub]
  {
    if |c| >= 2 {
      NonEmptyTail(q.mem.heap, c);
    }
  }

  lemma NonEmptyTail(heap: map<Ptr, Cell>, c: seq<Ptr>)
    requires |c| >= 2 && c[0] != c[1]
    ensures Msgs(heap, c) != []
  {
  }

  /** The whole of a `pop` on an empty queue. */
  lemma EmptyPop(q: Queue, c: seq<Ptr>)
    requires Inv(q, c) && q.pop == LoadHead && Contents(q, c) == []
    ensures PopAlone(q, 10) == q.(pop := Done(Null)) && ChainAlone(q, c, 10) == c
    ensures Inv(q.(pop := Done(Null)), c)
  {
    EmptyChain(q, c);
    FirstLink(q.mem, c, Held(q, c));
    assert c[0] in c;
    var q1 := PopStep(q);
    var q2 := PopStep(q1);
    assert q2 == q.(pop := Done(Null));
    assert PopAlone(q, 10) == PopAlone(q1, 9) == PopAlone(q2, 8);
    assert ChainAlone(q, c, 10) == ChainAlone(q1, c, 9) == ChainAlone(q2, c, 8);
    assert Held(q2, c) == Held(q, c);
  }

  /**
    With every link written and producers quiet, one call of `pop` returns the
    oldest payload, or null exactly when there is none.
   */
  lemma UndisturbedPop(q: Queue, c: seq<Ptr>)
    requires Inv(q, c) && q.pop == LoadHead && !ProducerLinking(q.mem)
    ensures var q', c' := PopAlone(q, 10), ChainAlone(q, c, 10);
      && Inv(q', c') && !ProducerLinking(q'.mem) && q'.pop.Done?
      && (q'.pop.result == Null <==> Contents(q, c) == [])
      && (Contents(q, c) == [] ==> Contents(q', c') == [])
      && (Contents(q, c) != [] ==>
            && SelfOf(q'.mem.heap, q'.pop.result) == Contents(q, c)[0]
            && Contents(q', c') == Contents(q, c)[1..])
  {
    if Contents(q, c) != [] {
      PopAloneFrom(q, c, 10);
      StubOrPayload(PopAlone(q, 10), ChainAlone(q, c, 10));
    } else {
      EmptyPop(q, c);
    }
  }

  lemma StubOrPayload(q: Queue, c: seq<Ptr>)
    requires Inv(q, c)
    ensures Null !in q.out
  {
  }
}
