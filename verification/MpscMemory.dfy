/**
  The memory that producers and the consumer of an intrusive multi-producer queue
  share, and the push protocol that both queue implementations run over it
  (`IntMpscQueue::push` and `MpscQueue::push` are the same three memory steps).

  Every memory access is one step.  Steps are sequentially consistent.  Addresses
  may be reused as soon as they have been freed.
 */
module MpscMemory {

  /** Any number of producers, and the single consumer, which pushes the stub itself. */
  datatype Thread = Producer(id: nat) | Consumer

  datatype Ptr = Null | Stub | Node(addr: nat)

  /** What `Node::self` leads to: nothing for a null message, a command otherwise. */
  datatype Msg = NullMsg | Command(id: nat)

  datatype Cell = Cell(next: Ptr, self: Msg)

  /** Where a thread stands inside `push(node)`. */
  datatype PushPc =
    | Clear(node: Ptr)             // about to run  next->next = NULL
    | Swap(node: Ptr)              // about to run  prev = tail.exchange(next)
    | Link(node: Ptr, prev: Ptr)   // about to run  prev->next = next

  /** `pushes` holds the pushes in progress; `fault` records an access to freed memory. */
  datatype Mem = Mem(heap: map<Ptr, Cell>, tail: Ptr, pushes: map<Thread, PushPc>, fault: bool)

  // ---------- Steps ----------

  function SetNext(m: Mem, p: Ptr, v: Ptr): Mem {
    if p in m.heap then m.(heap := m.heap[p := m.heap[p].(next := v)])
    else m.(fault := true)
  }

  function NextOf(m: Mem, p: Ptr): Ptr {
    if p in m.heap then m.heap[p].next else Null
  }

  /** Dereferencing `p` leaves the memory as it is, or faults. */
  function Touch(m: Mem, p: Ptr): Mem {
    if p in m.heap then m else m.(fault := true)
  }

  /** A new node at a free address; its `next` field is not initialised. */
  function Allocate(m: Mem, n: Ptr, msg: Msg, junk: Ptr): Mem {
    m.(heap := m.heap[n := Cell(junk, msg)])
  }

  function Free(m: Mem, n: Ptr): Mem {
    if n in m.heap then m.(heap := m.heap - {n}) else m.(fault := true)
  }

  function StartPush(m: Mem, t: Thread, n: Ptr): Mem {
    m.(pushes := m.pushes[t := Clear(n)])
  }

  function PushStep(m: Mem, t: Thread): Mem
    requires t in m.pushes
  {
    match m.pushes[t]
    case Clear(n) => SetNext(m, n, Null).(pushes := m.pushes[t := Swap(n)])
    case Swap(n) => m.(tail := n, pushes := m.pushes[t := Link(n, m.tail)])
    case Link(n, prev) => SetNext(m, prev, n).(pushes := m.pushes - {t})
  }

  /** The exchange is the step at which a push takes effect. */
  predicate Exchanges(m: Mem, t: Thread) {
    t in m.pushes && m.pushes[t].Swap?
  }

  /** `t` has exchanged the tail and not yet written the link. */
  predicate Linking(m: Mem, t: Thread) {
    t in m.pushes && m.pushes[t].Link?
  }

  /** A step of a push changes no message, allocates and frees nothing, and disturbs no other push. */
  lemma PushSelf(m: Mem, t: Thread)
    requires t in m.pushes
    ensures forall x | x in m.heap :: SelfOf(PushStep(m, t).heap, x) == SelfOf(m.heap, x)
    ensures forall x | x in m.heap :: x in PushStep(m, t).heap
    ensures forall u | u != t :: u in PushStep(m, t).pushes <==> u in m.pushes
    ensures forall u | u != t && u in m.pushes :: PushStep(m, t).pushes[u] == m.pushes[u]
    ensures t in PushStep(m, t).pushes <==> !m.pushes[t].Link?
  {
  }

  /** The steps of a push still to come. */
  function PushRank(m: Mem, t: Thread): nat {
    if t !in m.pushes then 0
    else match m.pushes[t]
      case Clear(_) => 3
      case Swap(_) => 2
      case Link(_, _) => 1
  }

  /** Each step of a push brings it one step closer to its end and leaves the others where they are. */
  lemma PushProgress(m: Mem, t: Thread)
    requires t in m.pushes
    ensures PushRank(PushStep(m, t), t) + 1 == PushRank(m, t) <= 3
    ensures forall u | u != t :: PushRank(PushStep(m, t), u) == PushRank(m, u)
  {
  }

  /** The node that the next step of a push writes to. */
  function Target(pc: PushPc): Ptr {
    match pc
    case Clear(n) => n
    case Swap(n) => n
    case Link(_, prev) => prev
  }

  // ---------- Shape ----------

  ghost predicate Distinct(c: seq<Ptr>) {
    forall i, j | 0 <= i < j < |c| :: c[i] != c[j]
  }

  /** `b` directly follows `a` in the chain. */
  ghost predicate Adjacent(c: seq<Ptr>, a: Ptr, b: Ptr) {
    exists i, j :: 0 <= i < |c| && 0 <= j < |c| && j == i + 1 && c[i] == a && c[j] == b
  }

  /** Some push has exchanged `a` for `b` and still has to write the link. */
  ghost predicate Pending(m: Mem, a: Ptr, b: Ptr) {
    exists t :: t in m.pushes && m.pushes[t] == Link(b, a)
  }

  ghost predicate LinkOk(m: Mem, a: Ptr, b: Ptr) {
    a in m.heap && (m.heap[a].next == b || (m.heap[a].next == Null && Pending(m, a, b)))
  }

  ghost predicate ChainOk(m: Mem, c: seq<Ptr>) {
    && |c| >= 1
    && m.tail == c[|c| - 1]
    && Distinct(c)
    && (forall x | x in c :: x in m.heap)
    && m.heap[c[|c| - 1]].next == Null
    && (forall i, j | 0 <= i < |c| && 0 <= j < |c| && j == i + 1 :: LinkOk(m, c[i], c[j]))
  }

  ghost predicate PushOk(m: Mem, c: seq<Ptr>, held: set<Ptr>, pc: PushPc) {
    match pc
    case Clear(n) => n in m.heap && n !in c && n !in held
    case Swap(n) => n in m.heap && n !in c && n !in held && m.heap[n].next == Null
    case Link(n, prev) => prev in m.heap && m.heap[prev].next == Null && Adjacent(c, prev, n)
  }

  /** Every allocated node is on the chain, held by the consumer, or not yet exchanged. */
  ghost predicate Accounted(m: Mem, c: seq<Ptr>, held: set<Ptr>, x: Ptr) {
    x in c || x in held || exists t :: t in m.pushes && !m.pushes[t].Link? && m.pushes[t].node == x
  }

  /**
    The shape invariant.  `c` lists the nodes from the queue's head to its tail;
    `held` is the set of nodes that belong to the consumer alone.
   */
  ghost predicate Linked(m: Mem, c: seq<Ptr>, held: set<Ptr>) {
    && !m.fault
    && Null !in m.heap
    && ChainOk(m, c)
    && (forall x | x in held :: x in m.heap && x !in c)
    && (forall t | t in m.pushes :: PushOk(m, c, held, m.pushes[t]))
    && (forall t, u | t in m.pushes && u in m.pushes && t != u :: m.pushes[t].node != m.pushes[u].node)
    && (forall x | x in m.heap :: Accounted(m, c, held, x))
  }

  // ---------- The invariant is kept ----------

  /** Links stay right while chain nodes keep their links and no push that is linking goes away. */
  lemma LinksKept(m: Mem, m': Mem, c: seq<Ptr>)
    requires forall i, j | 0 <= i < |c| && 0 <= j < |c| && j == i + 1 :: LinkOk(m, c[i], c[j])
    requires forall x | x in c && x in m.heap :: x in m'.heap && m'.heap[x].next == m.heap[x].next
    requires forall t | t in m.pushes && m.pushes[t].Link? :: t in m'.pushes && m'.pushes[t] == m.pushes[t]
    ensures forall i, j | 0 <= i < |c| && 0 <= j < |c| && j == i + 1 :: LinkOk(m', c[i], c[j])
  {
    forall i, j | 0 <= i < |c| && 0 <= j < |c| && j == i + 1 ensures LinkOk(m', c[i], c[j]) {
      assert LinkOk(m, c[i], c[j]);
      if m.heap[c[i]].next != c[j] {
        var u :| u in m.pushes && m.pushes[u] == Link(c[j], c[i]);
        assert m'.pushes[u] == Link(c[j], c[i]);
      }
    }
  }

  /** An allocated node stays accounted for while no push lets go of it. */
  lemma AccountedKept(m: Mem, c: seq<Ptr>, held: set<Ptr>, m': Mem, c': seq<Ptr>, held': set<Ptr>, x: Ptr)
    requires Accounted(m, c, held, x)
    requires x in c || x in held ==> Accounted(m', c', held', x)
    requires forall t | t in m.pushes && !m.pushes[t].Link? ::
      t in m'.pushes && !m'.pushes[t].Link? && m'.pushes[t].node == m.pushes[t].node
    ensures Accounted(m', c', held', x)
  {
    if x !in c && x !in held {
      var t :| t in m.pushes && !m.pushes[t].Link? && m.pushes[t].node == x;
      assert m'.pushes[t].node == x;
    }
  }

  lemma AllocateKeeps(m: Mem, c: seq<Ptr>, held: set<Ptr>, t: Thread, n: Ptr, msg: Msg, junk: Ptr)
    requires Linked(m, c, held)
    requires t !in m.pushes && n.Node? && n !in m.heap
    ensures Linked(StartPush(Allocate(m, n, msg, junk), t, n), c, held)
  {
    var m' := StartPush(Allocate(m, n, msg, junk), t, n);
    LinksKept(m, m', c);
    forall u | u in m'.pushes ensures PushOk(m', c, held, m'.pushes[u]) {
      if u != t {
        assert PushOk(m, c, held, m.pushes[u]);
      }
    }
    forall x | x in m'.heap ensures Accounted(m', c, held, x) {
      if x == n {
        assert m'.pushes[t].node == x;
      } else {
        AccountedKept(m, c, held, m', c, held, x);
      }
    }
  }

  /** The consumer gives a node of its own (the stub) to a push. */
  lemma StartPushKeeps(m: Mem, c: seq<Ptr>, held: set<Ptr>, t: Thread, n: Ptr)
    requires Linked(m, c, held)
    requires t !in m.pushes && n in held
    ensures Linked(StartPush(m, t, n), c, held - {n})
  {
    var m' := StartPush(m, t, n);
    LinksKept(m, m', c);
    forall u | u in m'.pushes ensures PushOk(m', c, held - {n}, m'.pushes[u]) {
      if u != t {
        assert PushOk(m, c, held, m.pushes[u]);
      }
    }
    forall x | x in m'.heap ensures Accounted(m', c, held - {n}, x) {
      if x == n {
        assert m'.pushes[t].node == x;
      } else {
        AccountedKept(m, c, held, m', c, held - {n}, x);
      }
    }
    HeldNotPushed(m, c, held, n);
  }

  lemma HeldNotPushed(m: Mem, c: seq<Ptr>, held: set<Ptr>, n: Ptr)
    requires Linked(m, c, held) && n in held
    ensures forall t | t in m.pushes :: m.pushes[t].node != n
  {
  }

  function PushChain(m: Mem, c: seq<Ptr>, t: Thread): seq<Ptr> {
    if Exchanges(m, t) then c + [m.pushes[t].node] else c
  }

  lemma PushKeeps(m: Mem, c: seq<Ptr>, held: set<Ptr>, t: Thread)
    requires Linked(m, c, held) && t in m.pushes
    ensures Linked(PushStep(m, t), PushChain(m, c, t), held)
  {
    assert PushOk(m, c, held, m.pushes[t]);
    match m.pushes[t]
    case Clear(n) => ClearKeeps(m, c, held, t);
    case Swap(n) => SwapKeeps(m, c, held, t);
    case Link(n, prev) => LinkKeeps(m, c, held, t);
  }

  lemma ClearKeeps(m: Mem, c: seq<Ptr>, held: set<Ptr>, t: Thread)
    requires Linked(m, c, held) && t in m.pushes && m.pushes[t].Clear?
    ensures Linked(PushStep(m, t), c, held)
  {
    var n := m.pushes[t].node;
    var m' := PushStep(m, t);
    assert PushOk(m, c, held, m.pushes[t]);
    LinksKept(m, m', c);
    forall u | u in m'.pushes ensures PushOk(m', c, held, m'.pushes[u]) {
      assert PushOk(m, c, held, m.pushes[u]);
    }
    forall x | x in m'.heap ensures Accounted(m', c, held, x) {
      AccountedKept(m, c, held, m', c, held, x);
    }
  }

  lemma AdjacentAppend(c: seq<Ptr>, n: Ptr, a: Ptr, b: Ptr)
    ensures Adjacent(c, a, b) ==> Adjacent(c + [n], a, b)
    ensures |c| > 0 ==> Adjacent(c + [n], c[|c| - 1], n)
  {
    var d := c + [n];
    if Adjacent(c, a, b) {
      var i, j :| 0 <= i < |c| && 0 <= j < |c| && j == i + 1 && c[i] == a && c[j] == b;
      assert d[i] == a && d[j] == b;
    }
    if |c| > 0 {
      assert d[|c| - 1] == c[|c| - 1] && d[|c|] == n;
    }
  }

  lemma SwapKeeps(m: Mem, c: seq<Ptr>, held: set<Ptr>, t: Thread)
    requires Linked(m, c, held) && t in m.pushes && m.pushes[t].Swap?
    ensures Linked(PushStep(m, t), c + [m.pushes[t].node], held)
  {
    var n := m.pushes[t].node;
    var m' := PushStep(m, t);
    var d := c + [n];
    assert PushOk(m, c, held, m.pushes[t]);
    assert forall x :: x in d <==> x in c || x == n;
    SwapLinks(m, c, held, t);
    SwapPushes(m, c, held, t);
    forall x | x in m'.heap ensures Accounted(m', d, held, x) {
      assert Accounted(m, c, held, x);
      if x !in d && x !in held {
        var u :| u in m.pushes && !m.pushes[u].Link? && m.pushes[u].node == x;
        assert m'.pushes[u].node == x;
      }
    }
  }

  lemma SwapLinks(m: Mem, c: seq<Ptr>, held: set<Ptr>, t: Thread)
    requires Linked(m, c, held) && t in m.pushes && m.pushes[t].Swap?
    ensures var d := c + [m.pushes[t].node];
      forall i, j | 0 <= i < |d| && 0 <= j < |d| && j == i + 1 :: LinkOk(PushStep(m, t), d[i], d[j])
  {
    hide Accounted, PushOk;
    var m' := PushStep(m, t);
    var d := c + [m.pushes[t].node];
    forall i, j | 0 <= i < |d| && 0 <= j < |d| && j == i + 1 ensures LinkOk(m', d[i], d[j]) {
      if j == |c| {
        assert m'.pushes[t] == Link(d[j], d[i]);
      } else {
        assert LinkOk(m, c[i], c[j]);
        if m.heap[c[i]].next == Null {
          var u :| u in m.pushes && m.pushes[u] == Link(c[j], c[i]);
          assert m'.pushes[u] == Link(c[j], c[i]);
        }
      }
    }
  }

  lemma SwapPushes(m: Mem, c: seq<Ptr>, held: set<Ptr>, t: Thread)
    requires Linked(m, c, held) && t in m.pushes && m.pushes[t].Swap?
    ensures forall u | u in PushStep(m, t).pushes ::
      PushOk(PushStep(m, t), c + [m.pushes[t].node], held, PushStep(m, t).pushes[u])
  {
    hide Accounted, LinkOk, Adjacent;
    var m' := PushStep(m, t);
    var n := m.pushes[t].node;
    forall u | u in m'.pushes ensures PushOk(m', c + [n], held, m'.pushes[u]) {
      assert PushOk(m, c, held, m.pushes[u]);
      if u == t {
        AdjacentAppend(c, n, Null, Null);
      } else if m.pushes[u].Link? {
        AdjacentAppend(c, n, m.pushes[u].prev, m.pushes[u].node);
      }
    }
  }

  /** In a chain without repetition a node has one successor. */
  lemma OneSuccessor(c: seq<Ptr>, a: Ptr, b: Ptr, b': Ptr)
    requires Distinct(c) && Adjacent(c, a, b) && Adjacent(c, a, b')
    ensures b == b'
  {
  }

  lemma LinkKeeps(m: Mem, c: seq<Ptr>, held: set<Ptr>, t: Thread)
    requires Linked(m, c, held) && t in m.pushes && m.pushes[t].Link?
    ensures Linked(PushStep(m, t), c, held)
  {
    var n, prev := m.pushes[t].node, m.pushes[t].prev;
    var m' := PushStep(m, t);
    assert PushOk(m, c, held, m.pushes[t]);
    LinkLinks(m, c, held, t);
    LinkPushes(m, c, held, t);
    var i, j :| 0 <= i < |c| && 0 <= j < |c| && j == i + 1 && c[i] == prev && c[j] == n;
    assert c[|c| - 1] != prev;
    forall x | x in m'.heap ensures Accounted(m', c, held, x) {
      AccountedKept(m, c, held, m', c, held, x);
    }
  }

  lemma LinkLinks(m: Mem, c: seq<Ptr>, held: set<Ptr>, t: Thread)
    requires Linked(m, c, held) && t in m.pushes && m.pushes[t].Link?
    ensures forall i, j | 0 <= i < |c| && 0 <= j < |c| && j == i + 1 :: LinkOk(PushStep(m, t), c[i], c[j])
  {
    hide Accounted;
    var n, prev := m.pushes[t].node, m.pushes[t].prev;
    var m' := PushStep(m, t);
    assert PushOk(m, c, held, m.pushes[t]);
    forall i, j | 0 <= i < |c| && 0 <= j < |c| && j == i + 1 ensures LinkOk(m', c[i], c[j]) {
      assert LinkOk(m, c[i], c[j]);
      if c[i] == prev {
        assert Adjacent(c, prev, c[j]);
        OneSuccessor(c, prev, n, c[j]);
      } else if m.heap[c[i]].next == Null {
        var u :| u in m.pushes && m.pushes[u] == Link(c[j], c[i]);
        assert m'.pushes[u] == Link(c[j], c[i]);
      }
    }
  }

  /** No two pushes are about to write the same link. */
  lemma OnePushPerLink(m: Mem, c: seq<Ptr>, held: set<Ptr>, t: Thread, u: Thread)
    requires Linked(m, c, held) && Linking(m, t) && Linking(m, u)
    requires m.pushes[t].prev == m.pushes[u].prev
    ensures t == u
  {
    assert PushOk(m, c, held, m.pushes[t]) && PushOk(m, c, held, m.pushes[u]);
    OneSuccessor(c, m.pushes[t].prev, m.pushes[t].node, m.pushes[u].node);
  }

  lemma LinkPushes(m: Mem, c: seq<Ptr>, held: set<Ptr>, t: Thread)
    requires Linked(m, c, held) && t in m.pushes && m.pushes[t].Link?
    ensures forall u | u in PushStep(m, t).pushes :: PushOk(PushStep(m, t), c, held, PushStep(m, t).pushes[u])
  {
    hide Accounted, LinkOk;
    var n, prev := m.pushes[t].node, m.pushes[t].prev;
    var m' := PushStep(m, t);
    assert PushOk(m, c, held, m.pushes[t]);
    assert prev in c;
    forall u | u in m'.pushes ensures PushOk(m', c, held, m'.pushes[u]) {
      assert PushOk(m, c, held, m.pushes[u]);
      if m.pushes[u].Link? && m.pushes[u].prev == prev {
        OnePushPerLink(m, c, held, t, u);
      }
    }
  }

  /** The consumer moves past a first node whose link is written. */
  lemma DropKeeps(m: Mem, c: seq<Ptr>, held: set<Ptr>)
    requires Linked(m, c, held)
    requires |c| >= 2 && m.heap[c[0]].next != Null
    ensures Linked(m, c[1..], held + {c[0]})
  {
    var d, h := c[1..], held + {c[0]};
    assert forall x :: x in c <==> x in d || x == c[0];
    forall i, j | 0 <= i < |d| && 0 <= j < |d| && j == i + 1 ensures LinkOk(m, d[i], d[j]) {
      assert d[i] == c[i + 1] && d[j] == c[j + 1];
      assert LinkOk(m, c[i + 1], c[j + 1]);
    }
    forall u | u in m.pushes ensures PushOk(m, d, h, m.pushes[u]) {
      assert PushOk(m, c, held, m.pushes[u]);
      if m.pushes[u].Link? {
        var prev := m.pushes[u].prev;
        var i, j :| 0 <= i < |c| && 0 <= j < |c| && j == i + 1 && c[i] == prev && c[j] == m.pushes[u].node;
        assert i != 0;
        assert d[i - 1] == prev && d[j - 1] == c[j];
      }
    }
    forall x | x in m.heap ensures Accounted(m, d, h, x) {
      assert Accounted(m, c, held, x);
    }
  }

  lemma FreeKeeps(m: Mem, c: seq<Ptr>, held: set<Ptr>, n: Ptr)
    requires Linked(m, c, held) && n in held
    ensures Linked(Free(m, n), c, held - {n})
  {
    var m' := Free(m, n);
    LinksKept(m, m', c);
    forall u | u in m'.pushes ensures PushOk(m', c, held - {n}, m'.pushes[u]) {
      assert PushOk(m, c, held, m.pushes[u]);
      if m.pushes[u].Link? {
        assert m.pushes[u].prev in c;
      }
    }
    forall x | x in m'.heap ensures Accounted(m', c, held - {n}, x) {
      AccountedKept(m, c, held, m', c, held - {n}, x);
    }
  }

  /** A whole push, undisturbed: the node is the last one, behind what was the last one. */
  lemma WholePush(m: Mem, c: seq<Ptr>, held: set<Ptr>, t: Thread)
    requires Linked(m, c, held) && t in m.pushes && m.pushes[t].Clear?
    ensures var n, last := m.pushes[t].node, m.tail;
      var m' := PushStep(PushStep(PushStep(m, t), t), t);
      && n in m.heap && last in m.heap && n != last && t !in m'.pushes
      && m'.tail == n && !m'.fault && m'.pushes == m.pushes - {t}
      && m'.heap == m.heap[n := Cell(Null, m.heap[n].self)][last := Cell(n, m.heap[last].self)]
  {
    assert PushOk(m, c, held, m.pushes[t]);
    var m1 := PushStep(m, t);
    var m2 := PushStep(m1, t);
    assert m.tail in c;
    assert m2.pushes[t] == Link(m.pushes[t].node, m.tail);
  }

  // ---------- What is in the queue ----------

  function SelfOf(heap: map<Ptr, Cell>, p: Ptr): Msg {
    if p in heap then heap[p].self else NullMsg
  }

  /** The messages of the payload nodes of a chain, oldest first. */
  function Msgs(heap: map<Ptr, Cell>, c: seq<Ptr>): seq<Msg> {
    if c == [] then []
    else (if c[0] == Stub then [] else [SelfOf(heap, c[0])]) + Msgs(heap, c[1..])
  }

  lemma {:induction false} MsgsAppend(heap: map<Ptr, Cell>, c: seq<Ptr>, n: Ptr)
    ensures Msgs(heap, c + [n]) == Msgs(heap, c) + (if n == Stub then [] else [SelfOf(heap, n)])
  {
    if c == [] {
      assert (c + [n])[1..] == [];
    } else {
      assert (c + [n])[1..] == c[1..] + [n];
      MsgsAppend(heap, c[1..], n);
    }
  }

  lemma {:induction false} MsgsFrame(heap: map<Ptr, Cell>, heap': map<Ptr, Cell>, c: seq<Ptr>)
    requires forall x | x in c :: SelfOf(heap, x) == SelfOf(heap', x)
    ensures Msgs(heap, c) == Msgs(heap', c)
  {
    if c != [] {
      assert c[0] in c;
      MsgsFrame(heap, heap', c[1..]);
    }
  }

  /** The commands among some messages. */
  function Ids(ms: seq<Msg>): seq<nat> {
    if ms == [] then [] else (match ms[0] case NullMsg => [] case Command(id) => [id]) + Ids(ms[1..])
  }

  lemma {:induction false} IdsAppend(ms: seq<Msg>, m: Msg)
    ensures Ids(ms + [m]) == Ids(ms) + (match m case NullMsg => [] case Command(id) => [id])
  {
    if ms == [] {
      assert Ids([m][1..]) == [];
    } else {
      assert (ms + [m])[1..] == ms[1..] + [m];
      IdsAppend(ms[1..], m);
    }
  }
}
