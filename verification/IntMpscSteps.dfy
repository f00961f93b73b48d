/**
  `IntMpscQueue` step by step: any number of producers inside `push`, the consumer
  inside `pop`, which pushes the embedded stub when it would empty the queue.
 */
module IntMpscSteps {
  import opened MpscMemory
  import opened Fifo

  /** Where the consumer stands inside `pop`, with the locals `h` and `n` still needed. */
  datatype PopPc =
    | Idle
    | LoadHead                      // h = head
    | ReadNext(h: Ptr)              // n = h->next
    | SkipStub(n: Ptr)              // head = n, h = n
    | ReadNextAfterSkip(h: Ptr)     // n = n->next
    | LoadTail(h: Ptr)              // t = tail
    | PushStub(h: Ptr)              // inside push(s)
    | ReadNextAfterPush(h: Ptr)     // n = h->next
    | StoreHead(h: Ptr, n: Ptr)     // head = n, return h
    | Done(result: Ptr)

  /** `out` lists the nodes the caller received and has not deleted; no step reads it. */
  datatype Queue = Queue(mem: Mem, head: Ptr, pop: PopPc, out: set<Ptr>)

  function Init(junk: Msg): Queue {
    Queue(Mem(map[Stub := Cell(Null, junk)], Stub, map[], false), Stub, Idle, {})
  }

  predicate CanPop(q: Queue) {
    !q.pop.Idle? && !q.pop.Done? && (q.pop.PushStub? ==> Consumer in q.mem.pushes)
  }

  function PopStep(q: Queue): Queue
    requires CanPop(q)
  {
    match q.pop
    case LoadHead =>
      q.(pop := ReadNext(q.head))
    case ReadNext(h) =>
      var n := NextOf(q.mem, h);
      q.(mem := Touch(q.mem, h),
         pop := if h == Stub then (if n == Null then Done(Null) else SkipStub(n))
                else if n != Null then StoreHead(h, n) else LoadTail(h))
    case SkipStub(n) =>
      q.(head := n, pop := ReadNextAfterSkip(n))
    case ReadNextAfterSkip(h) =>
      var n := NextOf(q.mem, h);
      q.(mem := Touch(q.mem, h), pop := if n != Null then StoreHead(h, n) else LoadTail(h))
    case LoadTail(h) =>
      if q.mem.tail != h then q.(pop := Done(Null))
      else q.(mem := StartPush(q.mem, Consumer, Stub), pop := PushStub(h))
    case PushStub(h) =>
      q.(mem := PushStep(q.mem, Consumer),
         pop := if Linking(q.mem, Consumer) then ReadNextAfterPush(h) else q.pop)
    case ReadNextAfterPush(h) =>
      var n := NextOf(q.mem, h);
      q.(mem := Touch(q.mem, h), pop := if n != Null then StoreHead(h, n) else Done(Null))
    case StoreHead(h, n) =>
      q.(head := n, pop := Done(h), out := q.out + {h})
  }

  function Delete(q: Queue, n: Ptr): Queue {
    q.(mem := Free(q.mem, n), out := q.out - {n})
  }

  // ---------- Invariant ----------

  /** The consumer owns what it popped, and the stub while that is off the chain. */
  ghost function Held(q: Queue, c: seq<Ptr>): set<Ptr> {
    q.out + if Stub in c || q.pop.PushStub? then {} else {Stub}
  }

  ghost predicate PopOk(q: Queue, c: seq<Ptr>)
    requires |c| >= 1
  {
    match q.pop
    case Idle => true
    case LoadHead => true
    case ReadNext(h) => h == c[0]
    case SkipStub(n) => c[0] == Stub && |c| >= 2 && n == c[1] && NextOf(q.mem, Stub) == n
    case ReadNextAfterSkip(h) => h == c[0] && h != Stub
    case LoadTail(h) => h == c[0] && h != Stub
    case PushStub(h) => h == c[0] && h != Stub
    case ReadNextAfterPush(h) => h == c[0] && h != Stub && Stub in c
    case StoreHead(h, n) => h == c[0] && h != Stub && |c| >= 2 && n == c[1] && NextOf(q.mem, h) == n
    case Done(r) => r == Null || r in q.out
  }

  ghost predicate StubOk(q: Queue) {
    && Stub in q.mem.heap
    && Stub !in q.out
    && (Consumer in q.mem.pushes <==> q.pop.PushStub?)
    && (forall t | t in q.mem.pushes :: q.mem.pushes[t].node == Stub <==> t == Consumer)
  }

  ghost predicate Inv(q: Queue, c: seq<Ptr>) {
    && Linked(q.mem, c, Held(q, c))
    && q.head == c[0]
    && StubOk(q)
    && PopOk(q, c)
  }

  function Contents(q: Queue, c: seq<Ptr>): seq<Msg> {
    Msgs(q.mem.heap, c)
  }

  /** The chain after a step of `pop`. */
  function PopChain(q: Queue, c: seq<Ptr>): seq<Ptr> {
    match q.pop
    case SkipStub(_) => if |c| > 0 then c[1..] else c
    case StoreHead(_, _) => if |c| > 0 then c[1..] else c
    case PushStub(_) => PushChain(q.mem, c, Consumer)
    case _ => c
  }

  function PopEvent(q: Queue): Event<Msg> {
    if q.pop.StoreHead? then Deq(SelfOf(q.mem.heap, q.pop.h)) else Internal
  }

  function PushEvent(q: Queue, t: Thread): Event<Msg> {
    if Exchanges(q.mem, t) then Enq(SelfOf(q.mem.heap, q.mem.pushes[t].node)) else Internal
  }

  // ---------- Producer steps ----------

  lemma SendKeeps(q: Queue, c: seq<Ptr>, t: Thread, n: Ptr, msg: Msg, junk: Ptr)
    requires Inv(q, c)
    requires t.Producer? && t !in q.mem.pushes && n.Node? && n !in q.mem.heap
    ensures Inv(q.(mem := StartPush(Allocate(q.mem, n, msg, junk), t, n)), c)
    ensures Contents(q.(mem := StartPush(Allocate(q.mem, n, msg, junk), t, n)), c) == Contents(q, c)
  {
    var q' := q.(mem := StartPush(Allocate(q.mem, n, msg, junk), t, n));
    AllocateKeeps(q.mem, c, Held(q, c), t, n, msg, junk);
    assert Held(q', c) == Held(q, c);
    assert c[0] in c;
    MsgsFrame(q.mem.heap, q'.mem.heap, c);
  }

  lemma PushContents(m: Mem, c: seq<Ptr>, held: set<Ptr>, t: Thread)
    requires Linked(m, c, held) && t in m.pushes
    ensures forall x | x in m.heap :: x in PushStep(m, t).heap && SelfOf(PushStep(m, t).heap, x) == SelfOf(m.heap, x)
    ensures Msgs(PushStep(m, t).heap, PushChain(m, c, t))
         == Msgs(m.heap, c)
            + if Exchanges(m, t) && m.pushes[t].node != Stub then [SelfOf(m.heap, m.pushes[t].node)] else []
  {
    assert PushOk(m, c, held, m.pushes[t]);
    var n := m.pushes[t].node;
    MsgsFrame(m.heap, PushStep(m, t).heap, c);
    if m.pushes[t].Swap? {
      MsgsAppend(PushStep(m, t).heap, c, n);
    }
  }

  lemma PushStepStub(q: Queue, c: seq<Ptr>, t: Thread)
    requires Inv(q, c) && t.Producer? && t in q.mem.pushes
    ensures StubOk(q.(mem := PushStep(q.mem, t)))
    ensures Stub in PushChain(q.mem, c, t) <==> Stub in c
    ensures Held(q.(mem := PushStep(q.mem, t)), PushChain(q.mem, c, t)) == Held(q, c)
  {
    assert PushOk(q.mem, c, Held(q, c), q.mem.pushes[t]);
  }

  lemma PushStepPop(q: Queue, c: seq<Ptr>, t: Thread)
    requires Inv(q, c) && t.Producer? && t in q.mem.pushes
    ensures PopOk(q.(mem := PushStep(q.mem, t)), PushChain(q.mem, c, t))
  {
  }

  lemma PushStepKeeps(q: Queue, c: seq<Ptr>, t: Thread)
    requires Inv(q, c) && t.Producer? && t in q.mem.pushes
    ensures Inv(q.(mem := PushStep(q.mem, t)), PushChain(q.mem, c, t))
    ensures Allows(Contents(q, c), PushEvent(q, t),
                   Contents(q.(mem := PushStep(q.mem, t)), PushChain(q.mem, c, t)))
  {
    PushKeeps(q.mem, c, Held(q, c), t);
    PushContents(q.mem, c, Held(q, c), t);
    PushStepStub(q, c, t);
    PushStepPop(q, c, t);
    assert PushOk(q.mem, c, Held(q, c), q.mem.pushes[t]);
    assert PushChain(q.mem, c, t)[0] == c[0];
  }

  // ---------- Consumer steps ----------

  lemma PopStepKeeps(q: Queue, c: seq<Ptr>)
    requires Inv(q, c) && CanPop(q)
    ensures Inv(PopStep(q), PopChain(q, c))
    ensures Allows(Contents(q, c), PopEvent(q), Contents(PopStep(q), PopChain(q, c)))
  {
    hide Linked;
    FirstLink(q.mem, c, Held(q, c));
    match q.pop
    case LoadHead => assert Held(PopStep(q), c) == Held(q, c);
    case ReadNext(h) => assert Held(PopStep(q), c) == Held(q, c);
    case SkipStub(n) => SkipKeeps(q, c);
    case ReadNextAfterSkip(h) => assert Held(PopStep(q), c) == Held(q, c);
    case LoadTail(h) => LoadTailKeeps(q, c);
    case PushStub(h) => PushStubKeeps(q, c);
    case ReadNextAfterPush(h) => assert Held(PopStep(q), c) == Held(q, c);
    case StoreHead(h, n) => StoreKeeps(q, c);
  }

  lemma SkipKeeps(q: Queue, c: seq<Ptr>)
    requires Inv(q, c) && q.pop.SkipStub?
    ensures Inv(PopStep(q), c[1..])
    ensures Contents(PopStep(q), c[1..]) == Contents(q, c)
  {
    FirstLink(q.mem, c, Held(q, c));
    DropKeeps(q.mem, c, Held(q, c));
    assert Stub !in c[1..];
    assert Held(PopStep(q), c[1..]) == Held(q, c) + {Stub};
    assert q.pop.n in c[1..];
  }

  lemma StoreKeeps(q: Queue, c: seq<Ptr>)
    requires Inv(q, c) && q.pop.StoreHead?
    ensures Inv(PopStep(q), c[1..])
    ensures Contents(q, c) == [SelfOf(q.mem.heap, q.pop.h)] + Contents(PopStep(q), c[1..])
  {
    FirstLink(q.mem, c, Held(q, c));
    DropKeeps(q.mem, c, Held(q, c));
    assert Stub in c[1..] <==> Stub in c;
    assert Held(PopStep(q), c[1..]) == Held(q, c) + {q.pop.h};
  }

  /** What a read of the first node's `next` can see. */
  lemma FirstLink(m: Mem, c: seq<Ptr>, held: set<Ptr>)
    requires Linked(m, c, held)
    ensures |c| == 1 ==> NextOf(m, c[0]) == Null
    ensures |c| >= 2 ==> NextOf(m, c[0]) == c[1] || (NextOf(m, c[0]) == Null && Pending(m, c[0], c[1]))
    ensures |c| >= 2 ==> c[1] != Null
    ensures c[0] in m.heap && c[0] in c
  {
  }

  lemma LoadTailKeeps(q: Queue, c: seq<Ptr>)
    requires Inv(q, c) && q.pop.LoadTail?
    ensures Inv(PopStep(q), c)
    ensures Contents(PopStep(q), c) == Contents(q, c)
  {
    var h := q.pop.h;
    if q.mem.tail != h {
      assert Held(PopStep(q), c) == Held(q, c);
    } else {
      assert |c| == 1;
      assert Stub !in c;
      StartPushKeeps(q.mem, c, Held(q, c), Consumer, Stub);
      HeldNotPushed(q.mem, c, Held(q, c), Stub);
      assert Held(PopStep(q), c) == Held(q, c) - {Stub};
    }
  }

  lemma PushStubKeeps(q: Queue, c: seq<Ptr>)
    requires Inv(q, c) && q.pop.PushStub?
    ensures Inv(PopStep(q), PopChain(q, c))
    ensures Contents(PopStep(q), PopChain(q, c)) == Contents(q, c)
  {
    hide Linked;
    PushKeeps(q.mem, c, Held(q, c), Consumer);
    PushContents(q.mem, c, Held(q, c), Consumer);
    StubOnChain(q.mem, c, Held(q, c), Consumer);
    assert Held(PopStep(q), PopChain(q, c)) == Held(q, c);
  }

  /** Where the node of a push is, relative to the chain. */
  lemma StubOnChain(m: Mem, c: seq<Ptr>, held: set<Ptr>, t: Thread)
    requires Linked(m, c, held) && t in m.pushes
    ensures |c| >= 1 && PushChain(m, c, t)[0] == c[0]
    ensures m.pushes[t].node in c <==> m.pushes[t].Link?
    ensures m.pushes[t].node in PushChain(m, c, t) <==> !m.pushes[t].Clear?
  {
  }

  /** A step of `pop` moves no producer, and hands a node out exactly when it stores the head. */
  lemma PopFrame(q: Queue)
    requires CanPop(q)
    ensures forall t: Thread | t.Producer? :: t in PopStep(q).mem.pushes <==> t in q.mem.pushes
    ensures PopStep(q).out == q.out + if q.pop.StoreHead? then {q.pop.h} else {}
    ensures q.pop.StoreHead? ==> PopStep(q).pop == Done(q.pop.h)
    ensures !q.pop.StoreHead? && PopStep(q).pop.Done? ==> PopStep(q).pop.result == Null
    ensures !PopStep(q).pop.Idle?
  {
    hide PushStep;
    if q.pop.PushStub? {
      PushSelf(q.mem, Consumer);
    }
  }

  lemma DeleteKeeps(q: Queue, c: seq<Ptr>, n: Ptr)
    requires Inv(q, c) && n in q.out && q.pop != Done(n)
    ensures Inv(Delete(q, n), c)
    ensures Contents(Delete(q, n), c) == Contents(q, c)
  {
    FreeKeeps(q.mem, c, Held(q, c), n);
    assert Held(Delete(q, n), c) == Held(q, c) - {n};
    assert c[0] in c;
    MsgsFrame(q.mem.heap, Delete(q, n).mem.heap, c);
  }

  /** Entering or leaving `pop` touches nothing shared. */
  lemma EnterLeave(q: Queue, c: seq<Ptr>, pc: PopPc)
    requires Inv(q, c) && (q.pop.Idle? || q.pop.Done?) && (pc.Idle? || pc.LoadHead?)
    ensures Inv(q.(pop := pc), c)
  {
  }
}
