/**
  `MpscQueue` step by step: the same pushes, over a chain whose first node is a dummy
  that rotates.  `pop` makes the next node the dummy, copies its data and deletes the
  old one.
 */
module MpscSteps {
  import opened MpscMemory
  import opened Fifo
  import opened Sending

  datatype PopPc =
    | Idle
    | LoadHead                        // h = head
    | ReadNext(h: Ptr)                // next = h->next
    | StoreHead(h: Ptr, n: Ptr)       // head = next
    | ReadData(h: Ptr, n: Ptr)        // data = next->data
    | DeleteDummy(h: Ptr, data: Msg)  // delete h
    | Done(result: Option<Msg>)

  /** `taken` is the message the latest successful `pop` took; no step reads it. */
  datatype Queue = Queue(mem: Mem, head: Ptr, pop: PopPc, taken: Option<Msg>)

  datatype Act = DoSend(t: nat, n: Ptr, data: Msg, junk: Ptr) | DoPush(t: nat) | DoCall | DoPop | DoReturn

  /** The constructor's dummy is value-initialised, so its `next` is null. */
  function Init(dummy: nat, junk: Msg): Queue {
    Queue(Mem(map[Node(dummy) := Cell(Null, junk)], Node(dummy), map[], false), Node(dummy), Idle, None)
  }

  predicate Enabled(q: Queue, a: Act) {
    match a
    case DoSend(t, n, _, _) => Producer(t) !in q.mem.pushes && n.Node? && n !in q.mem.heap
    case DoPush(t) => Producer(t) in q.mem.pushes
    case DoCall => q.pop.Idle?
    case DoPop => !q.pop.Idle? && !q.pop.Done?
    case DoReturn => q.pop.Done?
  }

  function PopStep(q: Queue): Queue
    requires Enabled(q, DoPop)
  {
    match q.pop
    case LoadHead => q.(pop := ReadNext(q.head))
    case ReadNext(h) =>
      var n := NextOf(q.mem, h);
      q.(mem := Touch(q.mem, h), pop := if n != Null then StoreHead(h, n) else Done(None))
    case StoreHead(h, n) => q.(head := n, pop := ReadData(h, n), taken := Some(SelfOf(q.mem.heap, n)))
    case ReadData(h, n) => q.(mem := Touch(q.mem, n), pop := DeleteDummy(h, SelfOf(q.mem.heap, n)))
    case DeleteDummy(h, data) => q.(mem := Free(q.mem, h), pop := Done(Some(data)))
  }

  function Step(q: Queue, a: Act): Queue {
    if !Enabled(q, a) then q else
    match a
    case DoSend(t, n, data, junk) => q.(mem := StartPush(Allocate(q.mem, n, data, junk), Producer(t), n))
    case DoPush(t) => q.(mem := PushStep(q.mem, Producer(t)))
    case DoCall => q.(pop := LoadHead)
    case DoPop => PopStep(q)
    case DoReturn => q.(pop := Idle)
  }

  function ChainStep(q: Queue, c: seq<Ptr>, a: Act): seq<Ptr> {
    if !Enabled(q, a) then c else
    match a
    case DoPush(t) => PushChain(q.mem, c, Producer(t))
    case DoPop => if q.pop.StoreHead? && |c| > 0 then c[1..] else c
    case _ => c
  }

  function EventOf(q: Queue, a: Act): Event<Msg> {
    if !Enabled(q, a) then Internal else
    match a
    case DoPush(t) =>
      if Exchanges(q.mem, Producer(t)) then Enq(SelfOf(q.mem.heap, q.mem.pushes[Producer(t)].node)) else Internal
    case DoPop => if q.pop.StoreHead? then Deq(SelfOf(q.mem.heap, q.pop.n)) else Internal
    case _ => Internal
  }

  function Run(acts: seq<Act>, dummy: nat, junk: Msg): Queue {
    if acts == [] then Init(dummy, junk) else Step(Run(acts[..|acts| - 1], dummy, junk), acts[|acts| - 1])
  }

  function ChainOf(acts: seq<Act>, dummy: nat, junk: Msg): seq<Ptr> {
    if acts == [] then [Node(dummy)]
    else
      var k := |acts| - 1;
      ChainStep(Run(acts[..k], dummy, junk), ChainOf(acts[..k], dummy, junk), acts[k])
  }

  function Trace(acts: seq<Act>, dummy: nat, junk: Msg): seq<Event<Msg>> {
    if acts == [] then []
    else
      var k := |acts| - 1;
      Trace(acts[..k], dummy, junk) + [EventOf(Run(acts[..k], dummy, junk), acts[k])]
  }

  // ---------- Invariant ----------

  /** The old dummy belongs to the consumer between `head = next` and its deletion. */
  function Held(q: Queue): set<Ptr> {
    match q.pop
    case ReadData(h, _) => {h}
    case DeleteDummy(h, _) => {h}
    case _ => {}
  }

  ghost predicate PopOk(q: Queue, c: seq<Ptr>)
    requires |c| >= 1
  {
    match q.pop
    case Idle => true
    case LoadHead => true
    case ReadNext(h) => h == c[0]
    case StoreHead(h, n) => h == c[0] && |c| >= 2 && n == c[1] && NextOf(q.mem, h) == n
    case ReadData(h, n) => n == c[0] && q.taken == Some(SelfOf(q.mem.heap, n))
    case DeleteDummy(h, data) => q.taken == Some(data)
    case Done(result) => result == None || result == q.taken
  }

  ghost predicate NoStub(q: Queue) {
    && Stub !in q.mem.heap
    && Consumer !in q.mem.pushes
  }

  ghost predicate Inv(q: Queue, c: seq<Ptr>) {
    Linked(q.mem, c, Held(q)) && q.head == c[0] && NoStub(q) && PopOk(q, c)
  }

  /** Everything behind the dummy. */
  function Contents(q: Queue, c: seq<Ptr>): seq<Msg> {
    if c == [] then [] else Msgs(q.mem.heap, c[1..])
  }

  lemma StepSend(q: Queue, c: seq<Ptr>, t: nat, n: Ptr, data: Msg, junk: Ptr)
    requires Inv(q, c) && Enabled(q, DoSend(t, n, data, junk))
    ensures Inv(Step(q, DoSend(t, n, data, junk)), c)
    ensures Contents(Step(q, DoSend(t, n, data, junk)), c) == Contents(q, c)
  {
    AllocateKeeps(q.mem, c, Held(q), Producer(t), n, data, junk);
    assert forall x | x in c[1..] :: x in c;
    assert c[0] in c;
    MsgsFrame(q.mem.heap, Step(q, DoSend(t, n, data, junk)).mem.heap, c[1..]);
  }

  lemma FirstKept(m: Mem, c: seq<Ptr>, held: set<Ptr>, t: Thread)
    requires Linked(m, c, held) && t in m.pushes
    ensures |c| >= 1 && PushChain(m, c, t)[0] == c[0] && |PushChain(m, c, t)| >= |c|
    ensures |c| >= 2 ==> PushChain(m, c, t)[1] == c[1]
    ensures |c| >= 2 && NextOf(m, c[0]) != Null ==> NextOf(PushStep(m, t), c[0]) == NextOf(m, c[0])
    ensures m.pushes[t].node in m.heap || m.pushes[t].Link?
    ensures PushChain(m, c, t)[1..] == if Exchanges(m, t) then c[1..] + [m.pushes[t].node] else c[1..]
    ensures forall x | x in c :: x in m.heap
    ensures PushStep(m, t).heap.Keys == m.heap.Keys
  {
    assert PushOk(m, c, held, m.pushes[t]);
    assert c[0] in c;
    if m.pushes[t].Link? {
      assert m.pushes[t].prev in c;
    }
  }

  lemma StepPush(q: Queue, c: seq<Ptr>, t: nat)
    requires Inv(q, c) && Enabled(q, DoPush(t))
    ensures Inv(Step(q, DoPush(t)), ChainStep(q, c, DoPush(t)))
    ensures Allows(Contents(q, c), EventOf(q, DoPush(t)), Contents(Step(q, DoPush(t)), ChainStep(q, c, DoPush(t))))
  {
    hide Linked;
    var p := Producer(t);
    var q' := Step(q, DoPush(t));
    PushKeeps(q.mem, c, Held(q), p);
    FirstKept(q.mem, c, Held(q), p);
    assert c[0] in c;
    assert forall x | x in c[1..] :: x in c;
    MsgsFrame(q.mem.heap, q'.mem.heap, c[1..]);
    if Exchanges(q.mem, p) {
      MsgsAppend(q'.mem.heap, c[1..], q.mem.pushes[p].node);
    }
  }

  lemma FirstLink(m: Mem, c: seq<Ptr>, held: set<Ptr>)
    requires Linked(m, c, held)
    ensures |c| == 1 ==> NextOf(m, c[0]) == Null
    ensures |c| >= 2 ==> NextOf(m, c[0]) == c[1] || (NextOf(m, c[0]) == Null && Pending(m, c[0], c[1]))
    ensures |c| >= 2 ==> c[1] != Null
    ensures forall x | x in c :: x in m.heap
    ensures |c| >= 1 && c[0] in c
  {
  }

  lemma StepPop(q: Queue, c: seq<Ptr>)
    requires Inv(q, c) && Enabled(q, DoPop)
    ensures Inv(Step(q, DoPop), ChainStep(q, c, DoPop))
    ensures Allows(Contents(q, c), EventOf(q, DoPop), Contents(Step(q, DoPop), ChainStep(q, c, DoPop)))
  {
    hide Linked;
    FirstLink(q.mem, c, Held(q));
    match q.pop
    case LoadHead =>
    case ReadNext(h) =>
    case StoreHead(h, n) =>
      DropKeeps(q.mem, c, Held(q));
      assert Held(q) + {h} == Held(Step(q, DoPop));
      assert c[1..][0] == n && n in c;
    case ReadData(h, n) =>
    case DeleteDummy(h, data) =>
      FreeKeeps(q.mem, c, Held(q), h);
      assert Held(q) - {h} == {};
      HeldOff(q.mem, c, Held(q));
      assert forall x | x in c[1..] :: x in c;
      MsgsFrame(q.mem.heap, Free(q.mem, h).heap, c[1..]);
  }

  lemma HeldOff(m: Mem, c: seq<Ptr>, held: set<Ptr>)
    requires Linked(m, c, held)
    ensures forall x | x in held :: x in m.heap && x !in c
  {
  }

  /** The nodes that are on their way to the queue are allocated and nobody else's. */
  lemma Entering(q: Queue, c: seq<Ptr>)
    requires Inv(q, c)
    ensures EnteringAllocated(q.mem)
    ensures forall t | t in q.mem.pushes && !q.mem.pushes[t].Link? :: q.mem.pushes[t].node !in Held(q)
  {
    assert forall t | t in q.mem.pushes :: PushOk(q.mem, c, Held(q), q.mem.pushes[t]);
  }

  /** `pop` leaves pushes alone, and all memory but the dummy it has put aside. */
  lemma PopFrame(q: Queue, a: Act)
    requires !a.DoPush? && !a.DoSend?
    ensures Step(q, a).mem.pushes == q.mem.pushes
    ensures forall x | x !in Held(q) :: SelfOf(Step(q, a).mem.heap, x) == SelfOf(q.mem.heap, x)
  {
  }

  lemma StepKeeps(q: Queue, c: seq<Ptr>, a: Act)
    requires Inv(q, c)
    ensures Inv(Step(q, a), ChainStep(q, c, a))
    ensures Allows(Contents(q, c), EventOf(q, a), Contents(Step(q, a), ChainStep(q, c, a)))
  {
    hide Linked;
    if Enabled(q, a) {
      match a
      case DoSend(t, n, data, junk) => StepSend(q, c, t, n, data, junk);
      case DoPush(t) => StepPush(q, c, t);
      case DoCall =>
      case DoPop => StepPop(q, c);
      case DoReturn =>
    }
  }

  /** In every run the shape holds, freed memory is never touched, and the history is one of the FIFO. */
  lemma {:induction false} RefinesFifo(acts: seq<Act>, dummy: nat, junk: Msg)
    ensures Inv(Run(acts, dummy, junk), ChainOf(acts, dummy, junk))
    ensures !Run(acts, dummy, junk).mem.fault
    ensures Replay(Trace(acts, dummy, junk)) == Some(Contents(Run(acts, dummy, junk), ChainOf(acts, dummy, junk)))
  {
    if acts != [] {
      hide Inv;
      var k := |acts| - 1;
      var q, c := Run(acts[..k], dummy, junk), ChainOf(acts[..k], dummy, junk);
      RefinesFifo(acts[..k], dummy, junk);
      StepKeeps(q, c, acts[k]);
      ReplayExtend(Trace(acts[..k], dummy, junk), Contents(q, c), EventOf(q, acts[k]),
                   Contents(Run(acts, dummy, junk), ChainOf(acts, dummy, junk)));
      NoFault(Run(acts, dummy, junk), ChainOf(acts, dummy, junk));
    }
  }

  lemma NoFault(q: Queue, c: seq<Ptr>)
    requires Inv(q, c)
    ensures !q.mem.fault
  {
  }

  /** `pop` hands out the data of the message it took, and nothing else. */
  lemma PopReturnsTaken(acts: seq<Act>, dummy: nat, junk: Msg, data: Msg)
    requires Run(acts, dummy, junk).pop == Done(Some(data))
    ensures Run(acts, dummy, junk).taken == Some(data)
  {
    RefinesFifo(acts, dummy, junk);
  }

  /** The dummy that `pop` deletes is off the chain and no push is going to write to it. */
  lemma DeletedDummyIsDead(acts: seq<Act>, dummy: nat, junk: Msg)
    requires Run(acts, dummy, junk).pop.DeleteDummy?
    ensures var q := Run(acts, dummy, junk);
      var h := q.pop.h;
      && h in q.mem.heap && h !in ChainOf(acts, dummy, junk)
      && h != q.head && h != q.mem.tail
      && (forall t | t in q.mem.pushes :: q.mem.pushes[t].node != h)
      && (forall t | t in q.mem.pushes && q.mem.pushes[t].Link? :: q.mem.pushes[t].prev != h)
  {
    RefinesFifo(acts, dummy, junk);
    var q, c := Run(acts, dummy, junk), ChainOf(acts, dummy, junk);
    assert q.pop.h in Held(q);
    HeldNotPushed(q.mem, c, Held(q), q.pop.h);
    forall t | t in q.mem.pushes && q.mem.pushes[t].Link? ensures q.mem.pushes[t].prev != q.pop.h {
      assert PushOk(q.mem, c, Held(q), q.mem.pushes[t]);
      assert q.mem.pushes[t].prev in c;
    }
    assert c[0] in c && c[|c| - 1] in c;
  }

  // ---------- Destructor ----------

  /** With no push in progress, every link is written and nothing else is allocated. */
  lemma FullyLinked(q: Queue, c: seq<Ptr>)
    requires Inv(q, c) && q.pop.Idle? && q.mem.pushes == map[]
    ensures |c| >= 1 && q.head == c[0] && !q.mem.fault
    ensures forall i | 0 <= i < |c| :: c[i] in q.mem.heap && c[i] != Null && c[i] != Stub
    ensures forall i, j | 0 <= i < |c| && 0 <= j < |c| && j == i + 1 :: NextOf(q.mem, c[i]) == c[j]
    ensures NextOf(q.mem, c[|c| - 1]) == Null
    ensures Distinct(c)
    ensures q.mem.heap.Keys == Elements(c)
  {
  }

  /** What is left of the memory once the first `k` nodes of the chain are freed. */
  ghost predicate Freed(m: Mem, q: Queue, c: seq<Ptr>, k: nat)
    requires k <= |c|
  {
    !m.fault && m.heap == q.mem.heap - Elements(c[..k])
  }

  lemma NothingFreed(q: Queue, c: seq<Ptr>)
    requires !q.mem.fault
    ensures Freed(q.mem, q, c, 0)
  {
  }

  /** Freeing the next node of the chain. */
  lemma FreeNext(m: Mem, q: Queue, c: seq<Ptr>, k: nat)
    requires k < |c| && Distinct(c) && Freed(m, q, c, k) && c[k] in q.mem.heap && c[k] != Stub
    ensures c[k] in m.heap && m.heap[c[k]] == q.mem.heap[c[k]]
    ensures Freed(Free(m, c[k]), q, c, k + 1)
    ensures Msgs(q.mem.heap, c[k..]) == [SelfOf(m.heap, c[k])] + Msgs(q.mem.heap, c[k + 1..])
  {
  }

  /**
    The destructor, run when no push and no pop is in progress: it frees every node
    exactly once, in order, clears the data still queued but not the dummy's, and
    leaves no memory behind.
   */
  method Destroy(q: Queue, ghost c: seq<Ptr>) returns (m: Mem, freed: seq<Ptr>, cleared: seq<Msg>)
    requires Inv(q, c) && q.pop.Idle? && q.mem.pushes == map[]
    ensures freed == c && cleared == Contents(q, c)
    ensures m.heap == map[] && !m.fault
  {
    hide Inv, Msgs, Elements, Distinct;
    FullyLinked(q, c);
    m, freed, cleared := q.mem, [], [];
    var next := q.head;
    var node := next;
    NothingFreed(q, c);
    if node != Null {
      FreeNext(m, q, c, 0);
      next := NextOf(m, node);
      m := Free(Touch(m, node), node);
      freed := freed + [node];
    }
    ghost var k := 1;
    node := next;
    while node != Null
      invariant 1 <= k <= |c| && freed == c[..k]
      invariant node == if k < |c| then c[k] else Null
      invariant Freed(m, q, c, k)
      invariant cleared + Msgs(q.mem.heap, c[k..]) == Contents(q, c)
      decreases |c| - k
    {
      FreeNext(m, q, c, k);
      next := NextOf(m, node);
      cleared := cleared + [SelfOf(m.heap, node)];
      m := Free(Touch(m, node), node);
      freed := freed + [node];
      assert freed == c[..k + 1];
      ghost var i, j := k, k + 1;
      assert j < |c| ==> NextOf(q.mem, c[i]) == c[j];
      k := k + 1;
      node := next;
    }
    assert c[..k] == c && Msgs(q.mem.heap, c[k..]) == [] by { EmptyMsgs(q.mem.heap, c[k..]); }
    assert m.heap.Keys == {};
  }

  lemma EmptyMsgs(heap: map<Ptr, Cell>, c: seq<Ptr>)
    requires c == []
    ensures Msgs(heap, c) == []
  {
  }
}
