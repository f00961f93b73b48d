/**
  The embedded stub's own link.  While the stub is off the chain its `next` still holds
  the node it was skipped for, which the caller may have received and deleted meanwhile.
 */
module IntMpscStub {
  import opened MpscMemory
  import opened IntMpscSteps
  import opened IntMpscRuns

  /** How often a run allocates a node at the address `p`. */
  function Allocations(acts: seq<Act>, stubSelf: Msg, p: Ptr): nat {
    if acts == [] then 0
    else
      var k := |acts| - 1;
      Allocations(acts[..k], stubSelf, p) + if Allocates(Run(acts[..k], stubSelf), acts[k], p) then 1 else 0
  }

  predicate Allocates(q: Queue, a: Act, p: Ptr) {
    a.DoSend? && Enabled(q, a) && a.n == p
  }

  /**
    While the stub is off the chain and its link not reset, the link is to the head, to a
    node handed out, to a node deleted since, or to an address that has been used again.
   */
  ghost predicate StaleOk(acts: seq<Act>, stubSelf: Msg) {
    var q, c := Run(acts, stubSelf), ChainOf(acts, stubSelf);
    var x := NextOf(q.mem, Stub);
    |c| >= 1 && (Stub !in c && x != Null ==>
      || x == c[0]
      || x in q.out
      || (x !in q.mem.heap && Allocations(acts, stubSelf, x) >= 1)
      || Allocations(acts, stubSelf, x) >= 2)
  }

  /** Where a stale link can come from: it was there before, or it is to the new head. */
  ghost predicate LinkFrom(q: Queue, c: seq<Ptr>, q': Queue, c': seq<Ptr>) {
    |c| >= 1 && |c'| >= 1 &&
    (Stub !in c' && NextOf(q'.mem, Stub) != Null ==>
      || NextOf(q'.mem, Stub) == c'[0]
      || (Stub !in c && NextOf(q.mem, Stub) == NextOf(q'.mem, Stub)
          && (NextOf(q.mem, Stub) == c[0] ==> NextOf(q.mem, Stub) in q'.out)))
  }

  lemma LinkPush(q: Queue, c: seq<Ptr>, t: Thread)
    requires Inv(q, c) && t.Producer? && t in q.mem.pushes
    ensures LinkFrom(q, c, q.(mem := PushStep(q.mem, t)), PushChain(q.mem, c, t))
  {
    assert PushOk(q.mem, c, Held(q, c), q.mem.pushes[t]);
    if q.mem.pushes[t].Link? {
      assert q.mem.pushes[t].prev in c;
    }
    assert PushChain(q.mem, c, t)[0] == c[0];
  }

  lemma LinkPop(q: Queue, c: seq<Ptr>)
    requires Inv(q, c) && CanPop(q)
    ensures LinkFrom(q, c, PopStep(q), PopChain(q, c))
  {
    PopStepKeeps(q, c);
    if q.pop.PushStub? {
      StubOnChain(q.mem, c, Held(q, c), Consumer);
      assert PushOk(q.mem, c, Held(q, c), q.mem.pushes[Consumer]);
    }
  }

  lemma LinkStep(q: Queue, c: seq<Ptr>, a: Act)
    requires Inv(q, c)
    ensures LinkFrom(q, c, Step(q, a), ChainStep(q, c, a))
  {
    hide PopStep, PushStep;
    if Enabled(q, a) {
      match a
      case DoPush(t) => LinkPush(q, c, Producer(t));
      case DoPop => LinkPop(q, c);
      case _ =>
    }
  }

  /** Only the caller's `delete` takes a node back, and only a send allocates one. */
  lemma NodeStep(q: Queue, c: seq<Ptr>, a: Act, x: Ptr)
    requires Inv(q, c)
    ensures x in q.out ==> x in Step(q, a).out || (a == DoDelete(x) && x !in Step(q, a).mem.heap)
    ensures x in Step(q, a).mem.heap ==> x in q.mem.heap || Allocates(q, a, x)
    ensures x in q.mem.heap ==> !Allocates(q, a, x)
    ensures x in q.mem.heap && !a.DoDelete? ==> x in Step(q, a).mem.heap
    ensures Allocates(q, a, x) ==> x in Step(q, a).mem.heap && x.Node?
  {
    hide Linked;
  }

  lemma {:induction false} Allocated(acts: seq<Act>, stubSelf: Msg, x: Ptr)
    requires x in Run(acts, stubSelf).mem.heap && x != Stub
    ensures Allocations(acts, stubSelf, x) >= 1
  {
    if acts != [] {
      hide Step, Enabled;
      var k := |acts| - 1;
      ShapeAlways(acts[..k], stubSelf);
      NodeStep(Run(acts[..k], stubSelf), ChainOf(acts[..k], stubSelf), acts[k], x);
      if x in Run(acts[..k], stubSelf).mem.heap {
        Allocated(acts[..k], stubSelf, x);
      }
    }
  }

  lemma {:induction false} StaleAlways(acts: seq<Act>, stubSelf: Msg)
    ensures StaleOk(acts, stubSelf)
  {
    if acts != [] {
      hide Inv, Step, ChainStep, Allocates;
      var k := |acts| - 1;
      var q, c := Run(acts[..k], stubSelf), ChainOf(acts[..k], stubSelf);
      var x := NextOf(Run(acts, stubSelf).mem, Stub);
      StaleAlways(acts[..k], stubSelf);
      ShapeAlways(acts[..k], stubSelf);
      LinkStep(q, c, acts[k]);
      NodeStep(q, c, acts[k], x);
      if x in q.out {
        OutAllocated(q, c, x);
        Allocated(acts[..k], stubSelf, x);
      }
    }
  }

  lemma OutAllocated(q: Queue, c: seq<Ptr>, x: Ptr)
    requires Inv(q, c) && x in q.out
    ensures x in q.mem.heap && x != Stub && x != Null
  {
    assert x in Held(q, c);
  }

  /**
    The stub is off the chain, its link not reset, and the head has moved on from the node it was
    skipped for, which is not deleted.
   */
  ghost predicate LeftBehind(q: Queue, c: seq<Ptr>) {
    var x := NextOf(q.mem, Stub);
    Stub !in c && x != Null && x != q.head && x in q.mem.heap
  }

  /**
    When the stub leads to a node that has been handed out, in every run: only if
    `LeftBehind`, and exactly then unless the address in the stub's link has meanwhile
    been allocated again (see `ReusedAddress`).
   */
  lemma StubLink(acts: seq<Act>, stubSelf: Msg)
    ensures var q, c := Run(acts, stubSelf), ChainOf(acts, stubSelf);
      var x := NextOf(q.mem, Stub);
      && (x in q.out ==> LeftBehind(q, c))
      && (LeftBehind(q, c) ==> x in q.out || Allocations(acts, stubSelf, x) >= 2)
  {
    var q, c := Run(acts, stubSelf), ChainOf(acts, stubSelf);
    var x := NextOf(q.mem, Stub);
    ShapeAlways(acts, stubSelf);
    if x in q.out {
      SafeReclamation(acts, stubSelf, x);
    }
    StaleAlways(acts, stubSelf);
  }

  /** A run that allocates no address twice. */
  ghost predicate NoReuse(acts: seq<Act>, stubSelf: Msg) {
    forall p :: Allocations(acts, stubSelf, p) <= 1
  }

  /** Without reuse of addresses the condition is exact, whatever the caller deletes. */
  lemma StubLinkExact(acts: seq<Act>, stubSelf: Msg)
    requires NoReuse(acts, stubSelf)
    ensures var q, c := Run(acts, stubSelf), ChainOf(acts, stubSelf);
      NextOf(q.mem, Stub) in q.out <==> LeftBehind(q, c)
  {
    StubLink(acts, stubSelf);
    assert Allocations(acts, stubSelf, NextOf(Run(acts, stubSelf).mem, Stub)) <= 1;
  }

  /** A run in which the caller deletes nothing reuses no address and keeps every node. */
  lemma {:induction false} NothingDeleted(acts: seq<Act>, stubSelf: Msg, p: Ptr)
    requires forall a | a in acts :: !a.DoDelete?
    ensures Allocations(acts, stubSelf, p) <= if p in Run(acts, stubSelf).mem.heap then 1 else 0
  {
    if acts != [] {
      hide Step, Enabled, Inv, Allocates;
      var k := |acts| - 1;
      assert acts[k] in acts;
      NothingDeleted(acts[..k], stubSelf, p);
      ShapeAlways(acts[..k], stubSelf);
      NodeStep(Run(acts[..k], stubSelf), ChainOf(acts[..k], stubSelf), acts[k], p);
    }
  }

  /** If the caller deletes nothing, the link is to a node handed out exactly when it is stale and not to the head. */
  lemma StubLinkWithoutDeletes(acts: seq<Act>, stubSelf: Msg)
    requires forall a | a in acts :: !a.DoDelete?
    ensures var q, c := Run(acts, stubSelf), ChainOf(acts, stubSelf);
      NextOf(q.mem, Stub) in q.out <==>
        Stub !in c && NextOf(q.mem, Stub) != Null && NextOf(q.mem, Stub) != q.head
  {
    var q, c := Run(acts, stubSelf), ChainOf(acts, stubSelf);
    NothingDeleted(acts, stubSelf, NextOf(q.mem, Stub));
    StubLink(acts, stubSelf);
    StaleAlways(acts, stubSelf);
    ShapeAlways(acts, stubSelf);
  }

  /** A node is on its way into the queue: its push has not exchanged the tail yet. */
  ghost predicate Entering(m: Mem, p: Ptr) {
    exists t :: t in m.pushes && !m.pushes[t].Link? && m.pushes[t].node == p
  }

  /** Every allocated node but the stub is queued, on its way into the queue, or handed out, and only one of these. */
  lemma Partition(acts: seq<Act>, stubSelf: Msg, x: Ptr)
    ensures var q, c := Run(acts, stubSelf), ChainOf(acts, stubSelf);
      x in q.out <==> x in q.mem.heap && x != Stub && x !in c && !Entering(q.mem, x)
  {
    ShapeAlways(acts, stubSelf);
    var q, c := Run(acts, stubSelf), ChainOf(acts, stubSelf);
    var held := Held(q, c);
    if x in q.out {
      assert x in held;
      HeldNotPushed(q.mem, c, held, x);
    } else if x in q.mem.heap && x != Stub && x !in c {
      assert Accounted(q.mem, c, held, x) && x !in held;
    }
  }

  /** The pointers `pop` still reads through or stores as the head. */
  function Locals(pc: PopPc): set<Ptr> {
    match pc
    case ReadNext(h) => {h}
    case SkipStub(n) => {n}
    case ReadNextAfterSkip(h) => {h}
    case LoadTail(h) => {h}
    case PushStub(h) => {h}
    case ReadNextAfterPush(h) => {h}
    case StoreHead(h, n) => {h, n}
    case _ => {}
  }

  /**
    A stale link is never followed: every pointer `pop` holds is on the chain, and reads of it see
    chain nodes or null.
   */
  lemma StaleLinkUnused(acts: seq<Act>, stubSelf: Msg, p: Ptr)
    requires p in Locals(Run(acts, stubSelf).pop)
    ensures var q, c := Run(acts, stubSelf), ChainOf(acts, stubSelf);
      && p in c && p !in q.out
      && (NextOf(q.mem, p) == Null || (NextOf(q.mem, p) in c && NextOf(q.mem, p) !in q.out))
  {
    ShapeAlways(acts, stubSelf);
    var q, c := Run(acts, stubSelf), ChainOf(acts, stubSelf);
    hide Run, ChainOf, Inv, Locals;
    LocalsOnChain(q, c, p);
    ChainInv(q, c);
    ChainNext(q.mem, c, Held(q, c), p);
  }

  lemma LocalsOnChain(q: Queue, c: seq<Ptr>, p: Ptr)
    requires Inv(q, c) && p in Locals(q.pop)
    ensures p in c
  {
    hide Linked;
    FirstLink(q.mem, c, Held(q, c));
    assert p == c[0] || (|c| >= 2 && p == c[1]);
  }

  lemma ChainInv(q: Queue, c: seq<Ptr>)
    requires Inv(q, c)
    ensures Linked(q.mem, c, Held(q, c))
    ensures forall x | x in q.out :: x !in c
  {
    assert forall x | x in q.out :: x in Held(q, c);
  }

  lemma RunAppend(acts: seq<Act>, a: Act, stubSelf: Msg)
    ensures Run(acts + [a], stubSelf) == Step(Run(acts, stubSelf), a)
    ensures ChainOf(acts + [a], stubSelf) == ChainStep(Run(acts, stubSelf), ChainOf(acts, stubSelf), a)
  {
    assert (acts + [a])[..|acts|] == acts;
  }

  /** Sending two commands and popping one leaves the stub pointing at the node handed out. */
  lemma StubMayPointAtReturned(stubSelf: Msg) returns (acts: seq<Act>)
    ensures var q := Run(acts, stubSelf);
      NextOf(q.mem, Stub) == Node(1) && Node(1) in q.out && q.pop == Done(Node(1)) && q.mem.pushes == map[]
  {
    var first := [DoSend(0, Node(1), Command(1), Null), DoPush(0), DoPush(0), DoPush(0)];
    var second := [DoSend(0, Node(2), Command(2), Null), DoPush(0), DoPush(0), DoPush(0)];
    var heap1 := map[Stub := Cell(Node(1), stubSelf), Node(1) := Cell(Null, Command(1))];
    var heap2 := map[Stub := Cell(Node(1), stubSelf), Node(1) := Cell(Node(2), Command(1)),
                     Node(2) := Cell(Null, Command(2))];
    var q1 := Queue(Mem(heap1, Node(1), map[], false), Stub, Idle, {});
    var q2 := Queue(Mem(heap2, Node(2), map[], false), Stub, Idle, {});
    Sent([], Init(stubSelf), 1, stubSelf);
    assert [] + first == first && Run(first, stubSelf) == q1;
    Sent(first, q1, 2, stubSelf);
    assert Run(first + second, stubSelf) == q2;
    acts := Popped(first + second, q2, stubSelf);
  }

  /**
    When the caller then deletes the node and its address is allocated again, the stub's
    stale link leads to the new node, which has not been handed out.
   */
  lemma ReusedAddress(stubSelf: Msg) returns (acts: seq<Act>)
    ensures var q, c := Run(acts, stubSelf), ChainOf(acts, stubSelf);
      LeftBehind(q, c) && NextOf(q.mem, Stub) !in q.out
  {
    hide Step, ChainStep, LeftBehind, Run, ChainOf;
    var before := StubMayPointAtReturned(stubSelf);
    var again := DoSend(0, Node(1), Command(3), Null);
    StubLink(before, stubSelf);
    Reuse(Run(before, stubSelf), ChainOf(before, stubSelf), again);
    RunAppend(before, DoReturn, stubSelf);
    RunAppend(before + [DoReturn], DoDelete(Node(1)), stubSelf);
    RunAppend(before + [DoReturn] + [DoDelete(Node(1))], again, stubSelf);
    acts := before + [DoReturn] + [DoDelete(Node(1))] + [again];
  }

  /** The caller returns from `pop`, deletes the node at address 1, and a send allocates it again. */
  lemma Reuse(q: Queue, c: seq<Ptr>, again: Act)
    requires q.pop == Done(Node(1)) && Node(1) in q.out && LeftBehind(q, c) && NextOf(q.mem, Stub) == Node(1)
    requires q.mem.pushes == map[] && again == DoSend(0, Node(1), Command(3), Null)
    ensures var q1, c1 := Step(q, DoReturn), ChainStep(q, c, DoReturn);
      var q2, c2 := Step(q1, DoDelete(Node(1))), ChainStep(q1, c1, DoDelete(Node(1)));
      var q3, c3 := Step(q2, again), ChainStep(q2, c2, again);
      LeftBehind(q3, c3) && NextOf(q3.mem, Stub) !in q3.out
  {
    var q1 := q.(pop := Idle);
    assert Step(q, DoReturn) == q1;
    var q2 := Step(q1, DoDelete(Node(1)));
    assert q2 == q1.(mem := q1.mem.(heap := q1.mem.heap - {Node(1)}), out := q1.out - {Node(1)});
    assert Enabled(q2, again);
  }

  /** A complete send of command `n` in the node of that address. */
  lemma Sent(acts: seq<Act>, q: Queue, n: nat, stubSelf: Msg)
    requires Run(acts, stubSelf) == q && q.mem.pushes == map[] && !q.mem.fault
    requires Node(n) !in q.mem.heap && q.mem.tail in q.mem.heap
    ensures var heap := q.mem.heap[Node(n) := Cell(Null, Command(n))];
      Run(acts + [DoSend(0, Node(n), Command(n), Null), DoPush(0), DoPush(0), DoPush(0)], stubSelf)
        == q.(mem := Mem(heap[q.mem.tail := heap[q.mem.tail].(next := Node(n))], Node(n), map[], false))
  {
    var a, b := DoSend(0, Node(n), Command(n), Null), DoPush(0);
    RunAppend(acts, a, stubSelf);
    RunAppend(acts + [a], b, stubSelf);
    RunAppend(acts + [a] + [b], b, stubSelf);
    RunAppend(acts + [a] + [b] + [b], b, stubSelf);
    assert acts + [a] + [b] + [b] + [b] == acts + [a, b, b, b];
    var q1 := Step(q, a);
    var q2 := Step(q1, b);
    var q3 := Step(q2, b);
    assert q3.mem.pushes == map[Producer(0) := Link(Node(n), q.mem.tail)];
    assert Step(q3, b).mem.pushes == map[];
  }

  /** A complete pop of the node at address 1, up to its result. */
  lemma Popped(acts: seq<Act>, q: Queue, stubSelf: Msg) returns (more: seq<Act>)
    requires Run(acts, stubSelf) == q && q.pop.Idle? && q.head == Stub && Stub in q.mem.heap
    requires NextOf(q.mem, Stub) == Node(1) && NextOf(q.mem, Node(1)) == Node(2) && Node(1) in q.mem.heap
    ensures Run(more, stubSelf) == q.(head := Node(2), pop := Done(Node(1)), out := q.out + {Node(1)})
  {
    var p := DoPop;
    var a1 := acts + [DoCall];
    RunAppend(acts, DoCall, stubSelf);
    RunAppend(a1, p, stubSelf);
    RunAppend(a1 + [p], p, stubSelf);
    RunAppend(a1 + [p] + [p], p, stubSelf);
    RunAppend(a1 + [p] + [p] + [p], p, stubSelf);
    RunAppend(a1 + [p] + [p] + [p] + [p], p, stubSelf);
    more := a1 + [p] + [p] + [p] + [p] + [p];
  }
}
