/**
  `MpscPipe` step by step: producers inside `send` (push, then `Eventcount::notify`) and
  one thread that calls `recv`, `Eventcount::out` around `MpscQueue::pop`, as often as it likes.
 */
module MpscPipeSteps {
  import opened MpscMemory
  import opened Eventcount
  import opened Fifo
  import opened Sending
  import opened MpscSteps

  datatype RecvPc =
    | Outside
    | InPop(site: Site)
    | Prepare             // waiting.store(true)
    | Cancel(data: Msg)   // waiting.store(false)
    | Commit              // sem_wait

  /**
    History, read by no step: `sent` in exchange order, `begun` in the order the sends began,
    `received` in the order of return, `waits` completed.
   */
  datatype Sys = Sys(q: Queue, ec: Eventcount, recv: RecvPc,
                     sent: seq<Sent>, begun: seq<Sent>, received: seq<Msg>, waits: nat)

  datatype Action = Send(p: nat, n: Ptr, data: Msg, junk: Ptr) | Produce(p: nat) | Consume

  function Start(dummy: nat, junk: Msg): Sys {
    Sys(Init(dummy, junk), Eventcount(false, 0, map[]), Outside, [], [], [], 0)
  }

  predicate Can(s: Sys, a: Action) {
    match a
    case Send(p, n, data, junk) => p !in s.ec.sends && Enabled(s.q, DoSend(p, n, data, junk))
    case Produce(p) => p in s.ec.sends && (s.ec.sends[p].Pushing? ==> Enabled(s.q, DoPush(p)))
    case Consume =>
      match s.recv
      case InPop(_) => !s.q.pop.Idle?
      case Commit => s.ec.sem > 0 && s.q.pop.Idle?
      case _ => s.q.pop.Idle?
  }

  /** The step of the queue that a step of the pipe makes. */
  function QueueAct(s: Sys, a: Action): Option<Act> {
    match a
    case Send(p, n, data, junk) => Some(DoSend(p, n, data, junk))
    case Produce(p) => if p in s.ec.sends && s.ec.sends[p].Pushing? then Some(DoPush(p)) else None
    case Consume =>
      match s.recv
      case Outside => Some(DoCall)
      case InPop(_) => Some(if s.q.pop.Done? then DoReturn else DoPop)
      case Prepare => Some(DoCall)
      case Cancel(_) => None
      case Commit => Some(DoCall)
  }

  function Receive(s: Sys): Sys
    requires Can(s, Consume)
  {
    match s.recv
    case Outside => s.(recv := InPop(Outer))
    case InPop(site) =>
      if !s.q.pop.Done? then s else (
        match s.q.pop.result
        case None => s.(recv := if site.Outer? then Prepare else Commit)
        case Some(data) =>
          if site.Outer? then s.(recv := Outside, received := s.received + [data]) else s.(recv := Cancel(data))
      )
    case Prepare => s.(ec := PrepareWait(s.ec), recv := InPop(Recheck))
    case Cancel(data) => s.(ec := CancelWait(s.ec), recv := Outside, received := s.received + [data])
    case Commit => s.(ec := CommitWait(s.ec), recv := InPop(Outer), waits := s.waits + 1)
  }

  /** The flag, the semaphore and the program counters; the queue is dealt with in `Next`. */
  function Control(s: Sys, a: Action): Sys
    requires Can(s, a)
  {
    match a
    case Send(p, _, data, _) => s.(ec := Entered(s.ec, p), begun := s.begun + [Sent(p, data)])
    case Produce(p) =>
      if !s.ec.sends[p].Pushing? then s.(ec := Notify(s.ec, p))
      else if Linking(s.q.mem, Producer(p)) then s.(ec := Pushed(s.ec, p))
      else s.(sent := SentAfter(s.sent, s.q.mem, p))
    case Consume => Receive(s)
  }

  function QueueNext(s: Sys, a: Action): Queue {
    match QueueAct(s, a)
    case None => s.q
    case Some(act) => Step(s.q, act)
  }

  function Next(s: Sys, a: Action): Sys {
    if Can(s, a) then Control(s, a).(q := QueueNext(s, a)) else s
  }

  function NextChain(s: Sys, c: seq<Ptr>, a: Action): seq<Ptr> {
    if !Can(s, a) then c else
    match QueueAct(s, a)
    case None => c
    case Some(act) => ChainStep(s.q, c, act)
  }

  function After(acts: seq<Action>, dummy: nat, junk: Msg): Sys {
    if acts == [] then Start(dummy, junk) else Next(After(acts[..|acts| - 1], dummy, junk), acts[|acts| - 1])
  }

  function Chain(acts: seq<Action>, dummy: nat, junk: Msg): seq<Ptr> {
    if acts == [] then [Node(dummy)]
    else NextChain(After(acts[..|acts| - 1], dummy, junk), Chain(acts[..|acts| - 1], dummy, junk), acts[|acts| - 1])
  }

  // ---------- Invariants ----------

  ghost predicate QueueOk(s: Sys, c: seq<Ptr>) {
    && Inv(s.q, c)
    && (s.recv.InPop? <==> !s.q.pop.Idle?)
    && (forall p :: Producer(p) in s.q.mem.pushes <==> p in s.ec.sends && s.ec.sends[p].Pushing?)
  }

  /** What has been taken from the queue and not yet returned by `recv`. */
  function InProgress(s: Sys): seq<Msg> {
    match s.recv
    case InPop(_) => (
      match s.q.pop
      case ReadData(_, n) => if s.q.taken.Some? then [s.q.taken.value] else []
      case DeleteDummy(_, data) => [data]
      case Done(result) => if result.Some? then [result.value] else []
      case _ => [])
    case Cancel(data) => [data]
    case _ => []
  }

  ghost predicate Conserved(s: Sys, c: seq<Ptr>) {
    Messages(s.sent) == s.received + InProgress(s) + Contents(s.q, c)
  }

  ghost predicate EventcountOk(s: Sys, c: seq<Ptr>) {
    && (s.recv == InPop(Recheck) || s.recv.Commit? ==> s.ec.waiting || s.ec.sem > 0 || Posting(s.ec))
    && (s.recv == InPop(Recheck) && s.q.pop == Done(None) && Contents(s.q, c) != [] ==> Awake(s.ec, s.q.mem))
    && (s.recv.Commit? && Contents(s.q, c) != [] ==> Awake(s.ec, s.q.mem))
  }

  // ---------- The queue and its content ----------

  lemma QueueOkNext(s: Sys, c: seq<Ptr>, a: Action)
    requires QueueOk(s, c)
    ensures QueueOk(Next(s, a), NextChain(s, c, a))
    ensures Can(s, a) && QueueAct(s, a).Some? ==>
      && Enabled(s.q, QueueAct(s, a).value)
      && Allows(Contents(s.q, c), EventOf(s.q, QueueAct(s, a).value), Contents(Next(s, a).q, NextChain(s, c, a)))
  {
    hide Inv, Allows, Contents;
    if Can(s, a) && QueueAct(s, a).Some? {
      StepKeeps(s.q, c, QueueAct(s, a).value);
      Pushes(s.q, QueueAct(s, a).value);
    }
  }

  /** Which pushes are in progress after a step of the queue, and where they stand. */
  lemma Pushes(q: Queue, a: Act)
    requires Enabled(q, a)
    ensures forall t: Thread | t.Producer? :: t in Step(q, a).mem.pushes <==>
      (t in q.mem.pushes && !(a == DoPush(t.id) && Linking(q.mem, t))) || (a.DoSend? && t == Producer(a.t))
    ensures forall t: Thread | t.Producer? && a != DoPush(t.id) && !(a.DoSend? && t == Producer(a.t)) ::
      Linking(Step(q, a).mem, t) <==> Linking(q.mem, t)
    ensures a.DoPush? && Exchanges(q.mem, Producer(a.t)) ==> Linking(Step(q, a).mem, Producer(a.t))
    ensures a.DoPush? || a.DoSend? ==> Step(q, a).pop == q.pop
  {
  }

  lemma ConservedNext(s: Sys, c: seq<Ptr>, a: Action)
    requires QueueOk(s, c) && Conserved(s, c)
    ensures Conserved(Next(s, a), NextChain(s, c, a))
  {
    hide Inv, Msgs, Contents, Step, InProgress, ChainStep, Messages;
    if Can(s, a) {
      QueueOkNext(s, c, a);
      Progress(s, c, a);
      if a.Produce? && s.ec.sends[a.p].Pushing? && Exchanges(s.q.mem, Producer(a.p)) {
        MessagesAppend(s.sent, Sent(a.p, SelfOf(s.q.mem.heap, s.q.mem.pushes[Producer(a.p)].node)));
      }
    }
  }

  /** How the data in progress changes with a step. */
  lemma Progress(s: Sys, c: seq<Ptr>, a: Action)
    requires QueueOk(s, c) && Can(s, a)
    ensures var s' := Next(s, a);
      var took := if a.Consume? && s.recv.InPop? && s.q.pop.StoreHead? then [SelfOf(s.q.mem.heap, s.q.pop.n)] else [];
      s.received + InProgress(s) + took == s'.received + InProgress(s')
  {
    hide Linked, PushStep, NoStub, Free, Allocate, Touch, Notify, SentAfter, Msgs;
  }

  // ---------- Each producer's own order ----------

  ghost predicate OrderOk(s: Sys) {
    InOrder(s.begun, s.sent, s.q.mem)
  }

  lemma OrderNext(s: Sys, c: seq<Ptr>, a: Action)
    requires QueueOk(s, c) && OrderOk(s)
    ensures OrderOk(Next(s, a))
  {
    hide Inv, InOrder, PopStep;
    if Can(s, a) {
      Entering(s.q, c);
      match a
      case Send(p, n, data, junk) => OrderBegin(s.begun, s.sent, s.q.mem, p, n, data, junk);
      case Produce(p) => if s.ec.sends[p].Pushing? { OrderPush(s.begun, s.sent, s.q.mem, p); }
      case Consume =>
        if QueueAct(s, a).Some? { PopFrame(s.q, QueueAct(s, a).value); }
        OrderFrame(s.begun, s.sent, s.q.mem, Next(s, a).q.mem);
    }
  }

  // ---------- The eventcount ----------

  /** Whoever is on its way stays on its way until it has posted. */
  lemma StillAwake(s: Sys, c: seq<Ptr>, a: Action)
    requires QueueOk(s, c) && Can(s, a)
    ensures Posting(s.ec) ==> Posting(Next(s, a).ec) || Next(s, a).ec.sem > 0
    ensures Awake(s.ec, s.q.mem) ==>
      || Awake(Next(s, a).ec, Next(s, a).q.mem)
      || (a.Consume? && s.recv.Commit?)
      || (a.Produce? && s.ec.sends[a.p].LoadWaiting? && !s.ec.waiting)
  {
    hide Inv, Step, ChainStep, Contents, Awake;
    if a.Produce? && !s.ec.sends[a.p].Pushing? {
      NotifyKeeps(s.ec, s.q.mem, a.p);
    } else if !(a.Consume? && s.recv.Commit?) {
      QueueStep(s, c, a);
    }
  }

  lemma QueueStep(s: Sys, c: seq<Ptr>, a: Action)
    requires QueueOk(s, c) && Can(s, a)
    requires !(a.Produce? && !s.ec.sends[a.p].Pushing?) && !(a.Consume? && s.recv.Commit?)
    ensures Posting(s.ec) ==> Posting(Next(s, a).ec)
    ensures Awake(s.ec, s.q.mem) ==> Awake(Next(s, a).ec, Next(s, a).q.mem)
  {
    hide Inv, Step, ChainStep, Contents, Awake, Posting;
    var s' := Next(s, a);
    if QueueAct(s, a).Some? {
      QueueOkNext(s, c, a);
      Pushes(s.q, QueueAct(s, a).value);
    }
    QueueStepKeeps(s.ec, s.q.mem, s'.ec, s'.q.mem);
  }

  /** A `pop` that is about to fail on a queue with data sees a producer on its way. */
  lemma NullRecheck(s: Sys, c: seq<Ptr>)
    requires QueueOk(s, c) && s.q.pop.ReadNext? && NextOf(s.q.mem, s.q.pop.h) == Null && Contents(s.q, c) != []
    ensures Awake(s.ec, s.q.mem)
  {
    FirstLink(s.q.mem, c, Held(s.q));
    assert |c| >= 2 by { NoContents(s.q.mem.heap, c); }
    var t :| t in s.q.mem.pushes && s.q.mem.pushes[t] == Link(c[1], c[0]);
    assert Poster(s.ec, s.q.mem, t.id);
  }

  lemma NoContents(heap: map<Ptr, Cell>, c: seq<Ptr>)
    ensures |c| == 1 ==> Msgs(heap, c[1..]) == []
  {
  }

  lemma EventcountProduce(s: Sys, c: seq<Ptr>, a: Action)
    requires QueueOk(s, c) && EventcountOk(s, c) && Can(s, a) && !a.Consume?
    ensures EventcountOk(Next(s, a), NextChain(s, c, a))
  {
    hide Inv, Step, Contents;
    var s' := Next(s, a);
    QueueOkNext(s, c, a);
    StillAwake(s, c, a);
    if QueueAct(s, a).Some? {
      Pushes(s.q, QueueAct(s, a).value);
    }
    if Posting(s'.ec) {
      var x :| x in s'.ec.sends && s'.ec.sends[x].Post?;
      assert Poster(s'.ec, s'.q.mem, x);
    }
    if a.Produce? && s.ec.sends[a.p].ClearWaiting? {
      assert s'.ec.sends[a.p].Post?;
    }
    if a.Produce? && s.ec.sends[a.p].Pushing? && Exchanges(s.q.mem, Producer(a.p)) {
      assert Poster(s'.ec, s'.q.mem, a.p);
    }
  }

  lemma EventcountConsume(s: Sys, c: seq<Ptr>)
    requires QueueOk(s, c) && EventcountOk(s, c) && Can(s, Consume)
    ensures EventcountOk(Next(s, Consume), NextChain(s, c, Consume))
  {
    hide Linked, Msgs;
    StillAwake(s, c, Consume);
    QueueOkNext(s, c, Consume);
    if s.recv == InPop(Recheck) && s.q.pop.ReadNext? && NextOf(s.q.mem, s.q.pop.h) == Null && Contents(s.q, c) != [] {
      NullRecheck(s, c);
    }
  }

  ghost predicate SysInv(s: Sys, c: seq<Ptr>) {
    QueueOk(s, c) && Conserved(s, c) && OrderOk(s) && EventcountOk(s, c)
  }

  lemma SysInvNext(s: Sys, c: seq<Ptr>, a: Action)
    requires SysInv(s, c)
    ensures SysInv(Next(s, a), NextChain(s, c, a))
  {
    hide QueueOk, Conserved, OrderOk, EventcountOk;
    QueueOkNext(s, c, a);
    ConservedNext(s, c, a);
    OrderNext(s, c, a);
    if Can(s, a) {
      if a.Consume? {
        EventcountConsume(s, c);
      } else {
        EventcountProduce(s, c, a);
      }
    }
  }

  lemma {:induction false} SysInvAlways(acts: seq<Action>, dummy: nat, junk: Msg)
    ensures SysInv(After(acts, dummy, junk), Chain(acts, dummy, junk))
  {
    if acts == [] {
      RefinesFifo([], dummy, junk);
    } else {
      hide SysInv;
      var k := |acts| - 1;
      SysInvAlways(acts[..k], dummy, junk);
      SysInvNext(After(acts[..k], dummy, junk), Chain(acts[..k], dummy, junk), acts[k]);
    }
  }

  // ---------- Theorems ----------

  /** What `recv` has returned is a prefix of what was sent, in exchange order; the rest is in progress or queued. */
  lemma PipeDelivers(acts: seq<Action>, dummy: nat, junk: Msg)
    ensures var s := After(acts, dummy, junk);
      && !s.q.mem.fault
      && Messages(s.sent) == s.received + InProgress(s) + Contents(s.q, Chain(acts, dummy, junk))
      && s.received <= Messages(s.sent) && |InProgress(s)| <= 1
  {
    SysInvAlways(acts, dummy, junk);
  }

  /**
    What has been received of one producer's data is a prefix of what it began to send, in
    its order, and nothing it has sent is missing once its sends have ended.
   */
  lemma ProducerOrder(acts: seq<Action>, dummy: nat, junk: Msg, p: nat)
    ensures var s := After(acts, dummy, junk);
      && |s.received| <= |s.sent| && s.received == Messages(s.sent[..|s.received|])
      && By(s.sent[..|s.received|], p) <= By(s.sent, p) <= By(s.begun, p)
      && |By(s.begun, p)| <= |By(s.sent, p)| + 1
      && (p !in s.ec.sends ==> By(s.sent, p) == By(s.begun, p))
  {
    var s := After(acts, dummy, junk);
    PipeDelivers(acts, dummy, junk);
    SysInvAlways(acts, dummy, junk);
    hide Inv, InOrder, EventcountOk;
    assert |Messages(s.sent)| == |s.sent|;
    assert s.received == Messages(s.sent)[..|s.received|] == Messages(s.sent[..|s.received|]);
    SentInOrder(s.begun, s.sent, s.q.mem, |s.received|, p);
  }

  /**
    No lost wake-up: a receiver blocked in `sem_wait` on zero, with no producer between
    its exchange and the end of its notification, has received everything that was sent.
   */
  lemma NoLostWakeup(acts: seq<Action>, dummy: nat, junk: Msg)
    requires var s := After(acts, dummy, junk); s.recv.Commit? && s.ec.sem == 0 && forall p :: !Poster(s.ec, s.q.mem, p)
    ensures var s := After(acts, dummy, junk);
      Contents(s.q, Chain(acts, dummy, junk)) == [] && s.received == Messages(s.sent) && s.ec.waiting
  {
    SysInvAlways(acts, dummy, junk);
    var s := After(acts, dummy, junk);
    if Posting(s.ec) {
      var p :| p in s.ec.sends && s.ec.sends[p].Post?;
      assert Poster(s.ec, s.q.mem, p);
    }
  }
}
