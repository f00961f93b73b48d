/**
  What a call of `IntMpscQueue::pop` returns while producers interfere: a node that is
  available when the call is entered is returned by it.
 */
module IntMpscPops {
  import opened MpscMemory
  import opened IntMpscSteps
  import opened IntMpscRuns

  /**
    The node `r` is at the head, or behind the stub at the head, and the links up to it and
    out of it are written.
   */
  ghost predicate Available(q: Queue, c: seq<Ptr>, r: Ptr) {
    && r != Stub && r != Null && NextOf(q.mem, r) != Null && |c| >= 1
    && (c[0] == r || (c[0] == Stub && |c| >= 2 && c[1] == r && NextOf(q.mem, Stub) == r))
  }

  /** A call that was entered with `r` available is on its way to returning it. */
  ghost predicate Heading(q: Queue, c: seq<Ptr>, r: Ptr) {
    match q.pop
    case LoadHead => Available(q, c, r)
    case ReadNext(h) => Available(q, c, r)
    case SkipStub(n) => Available(q, c, r) && n == r
    case ReadNextAfterSkip(h) => Available(q, c, r) && h == r
    case StoreHead(h, _) => h == r
    case Done(result) => result == r
    case _ => false
  }

  /** No push takes away what is available. */
  lemma AvailableKept(q: Queue, c: seq<Ptr>, t: Thread, r: Ptr)
    requires Inv(q, c) && Available(q, c, r) && t in q.mem.pushes
    ensures Available(q.(mem := PushStep(q.mem, t)), PushChain(q.mem, c, t), r)
  {
    var d := PushChain(q.mem, c, t);
    assert PushOk(q.mem, c, Held(q, c), q.mem.pushes[t]);
    assert d[0] == c[0] && (|c| >= 2 ==> d[1] == c[1]);
    assert c[0] in c && (|c| >= 2 ==> c[1] in c);
  }

  lemma HeadingPop(q: Queue, c: seq<Ptr>, r: Ptr)
    requires Inv(q, c) && Heading(q, c, r) && CanPop(q)
    ensures Heading(PopStep(q), PopChain(q, c), r)
  {
    hide Linked;
    FirstLink(q.mem, c, Held(q, c));
  }

  lemma HeadingStep(q: Queue, c: seq<Ptr>, a: Act, r: Ptr)
    requires Inv(q, c) && Heading(q, c, r) && !q.pop.Idle? && !Step(q, a).pop.Idle?
    ensures Heading(Step(q, a), ChainStep(q, c, a), r)
  {
    hide PushStep, PopStep;
    if Enabled(q, a) {
      match a
      case DoPush(t) =>
        if Available(q, c, r) {
          AvailableKept(q, c, Producer(t), r);
        }
      case DoPop => HeadingPop(q, c, r);
      case DoSend(_, n, _, _) => OnChain(q, c);
      case DoDelete(n) => OnChain(q, c);
    }
  }

  /** What may be deleted, and what has just been allocated, is not on the chain. */
  lemma OnChain(q: Queue, c: seq<Ptr>)
    requires Inv(q, c)
    ensures forall x | x in c :: x in q.mem.heap && x !in q.out
  {
    assert forall x | x in q.out :: x in Held(q, c);
  }

  /**
    A node that is available when a call of `pop` is entered is what that call returns,
    whatever the producers do.  With `PopIsWaitFree` the call does return.
   */
  lemma {:induction false} ReturnsAvailable(acts: seq<Act>, stubSelf: Msg, i: nat, r: Ptr)
    requires i <= |acts| && Run(acts[..i], stubSelf).pop == LoadHead
    requires Available(Run(acts[..i], stubSelf), ChainOf(acts[..i], stubSelf), r)
    requires forall k | i <= k <= |acts| :: !Run(acts[..k], stubSelf).pop.Idle?
    ensures Heading(Run(acts, stubSelf), ChainOf(acts, stubSelf), r)
    ensures Run(acts, stubSelf).pop.Done? ==> Run(acts, stubSelf).pop == Done(r)
  {
    hide Inv, Step, ChainStep, Available;
    assert acts[..|acts|] == acts;
    if i < |acts| {
      var k := |acts| - 1;
      var before := acts[..k];
      forall x | i <= x <= k ensures acts[..x] == before[..x] {
      }
      ReturnsAvailable(before, stubSelf, i, r);
      ShapeAlways(before, stubSelf);
      assert !Run(acts[..k], stubSelf).pop.Idle?;
      HeadingStep(Run(before, stubSelf), ChainOf(before, stubSelf), acts[k], r);
    }
  }

  // ---------- When the stub is pushed ----------

  /** `pop` goes on to push the stub exactly if the node it wants to return is the last one at that moment. */
  lemma PushesStubExactly(acts: seq<Act>, stubSelf: Msg)
    requires Run(acts, stubSelf).pop.LoadTail?
    ensures var q, c := Run(acts, stubSelf), ChainOf(acts, stubSelf);
      && (PopStep(q).pop.PushStub? <==> c == [q.pop.h])
      && (!PopStep(q).pop.PushStub? ==> PopStep(q) == q.(pop := Done(Null)))
  {
    ShapeAlways(acts, stubSelf);
    var q, c := Run(acts, stubSelf), ChainOf(acts, stubSelf);
    LastIsTail(q.mem, c, Held(q, c));
    assert |c| == 1 ==> c == [c[0]];
  }

  lemma LastIsTail(m: Mem, c: seq<Ptr>, held: set<Ptr>)
    requires Linked(m, c, held)
    ensures |c| >= 1 && m.tail == c[|c| - 1] && (m.tail == c[0] ==> |c| == 1)
  {
  }

  // ---------- Memory safety, stated by addresses ----------

  /** The node that the next step of `pop` reads. */
  function Read(pc: PopPc): Ptr {
    match pc
    case ReadNext(h) => h
    case ReadNextAfterSkip(h) => h
    case ReadNextAfterPush(h) => h
    case _ => Stub
  }

  /** In every state of every run, whatever a thread reads, writes or is handed next is allocated. */
  lemma AccessesAllocated(acts: seq<Act>, stubSelf: Msg)
    ensures var q := Run(acts, stubSelf);
      && (forall t | t in q.mem.pushes :: Target(q.mem.pushes[t]) in q.mem.heap)
      && Read(q.pop) in q.mem.heap
      && (q.pop.Done? && q.pop.result != Null ==> q.pop.result in q.mem.heap)
      && (forall n | n in q.out :: n in q.mem.heap)
  {
    ShapeAlways(acts, stubSelf);
    var q, c := Run(acts, stubSelf), ChainOf(acts, stubSelf);
    assert c[0] in c;
    forall t | t in q.mem.pushes ensures Target(q.mem.pushes[t]) in q.mem.heap {
      assert PushOk(q.mem, c, Held(q, c), q.mem.pushes[t]);
    }
    assert forall n | n in q.out :: n in Held(q, c);
  }
}
