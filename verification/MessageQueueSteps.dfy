/**
  `MessageQueue` step by step: producers inside `IntMpscPipe::send` (push, then
  `Eventcount::notify`), and the thread inside `run`, which loops over `receive`:
  `Eventcount::out` around `pop`, then call and delete the command, until a null message.
 */
module MessageQueueSteps {
  import opened MpscMemory
  import opened Eventcount
  import opened Fifo
  import opened Sending
  import opened IntMpscSteps
  import opened IntMpscRuns

  datatype RunPc =
    | InPop(site: Site)
    | Prepare                        // waiting.store(true)
    | Cancel(r: Ptr)                 // waiting.store(false)
    | Commit                         // sem_wait
    | GetCommand(r: Ptr)             // node->self
    | CallCommand(r: Ptr, id: nat)   // cmd->call()
    | DeleteCommand(r: Ptr)          // delete cmd
    | DeleteNull(r: Ptr)             // delete node
    | Stopped                        // run has returned

  /**
    `sent` lists the messages in exchange order, `begun` in the order their sends
    began, `called` the commands executed and `waits` the completed waits; these
    four are history that no step reads.
   */
  datatype Sys = Sys(q: Queue, ec: Eventcount, run: RunPc,
                     sent: seq<Sent>, begun: seq<Sent>, called: seq<nat>, waits: nat)

  datatype Action = Send(p: nat, n: Ptr, msg: Msg, junk: Ptr) | Produce(p: nat) | Consume

  function Start(stubSelf: Msg): Sys {
    Sys(Init(stubSelf).(pop := LoadHead), Eventcount(false, 0, map[]), InPop(Outer), [], [], [], 0)
  }

  predicate Can(s: Sys, a: Action) {
    match a
    case Send(p, n, _, _) => p !in s.ec.sends && Producer(p) !in s.q.mem.pushes && n.Node? && n !in s.q.mem.heap
    case Produce(p) => p in s.ec.sends && (s.ec.sends[p].Pushing? ==> Producer(p) in s.q.mem.pushes)
    case Consume =>
      && !s.run.Stopped?
      && (s.run.Commit? ==> s.ec.sem > 0)
      && (s.run.InPop? ==> CanPop(s.q) || s.q.pop.Done?)
  }

  function ProduceStep(s: Sys, p: nat): Sys
    requires Can(s, Produce(p))
  {
    match s.ec.sends[p]
    case Pushing =>
      var t := Producer(p);
      var m := s.q.mem;
      s.(q := s.q.(mem := PushStep(m, t)),
         ec := if Linking(m, t) then Pushed(s.ec, p) else s.ec,
         sent := SentAfter(s.sent, m, p))
    case _ => s.(ec := Notify(s.ec, p))
  }

  /** What `out` does with the result of a finished `pop`. */
  function AfterPop(site: Site, r: Ptr): RunPc {
    match site
    case Outer => if r == Null then Prepare else GetCommand(r)
    case Recheck => if r == Null then Commit else Cancel(r)
  }

  function ConsumeStep(s: Sys): Sys
    requires Can(s, Consume)
  {
    match s.run
    case InPop(site) =>
      if s.q.pop.Done? then s.(q := s.q.(pop := Idle), run := AfterPop(site, s.q.pop.result))
      else s.(q := PopStep(s.q))
    case Prepare => s.(ec := PrepareWait(s.ec), run := InPop(Recheck), q := s.q.(pop := LoadHead))
    case Cancel(r) => s.(ec := CancelWait(s.ec), run := GetCommand(r))
    case Commit => s.(ec := CommitWait(s.ec), waits := s.waits + 1, run := InPop(Outer), q := s.q.(pop := LoadHead))
    case GetCommand(r) =>
      s.(q := s.q.(mem := Touch(s.q.mem, r)),
         run := match SelfOf(s.q.mem.heap, r)
                case NullMsg => DeleteNull(r)
                case Command(id) => CallCommand(r, id))
    case CallCommand(r, id) => s.(called := s.called + [id], run := DeleteCommand(r))
    case DeleteCommand(r) => s.(q := Delete(s.q, r).(pop := LoadHead), run := InPop(Outer))
    case DeleteNull(r) => s.(q := Delete(s.q, r), run := Stopped)
  }

  /** A step that is not enabled does not happen; in particular `sem_wait` blocks on zero. */
  function Next(s: Sys, a: Action): Sys {
    if !Can(s, a) then s else
    match a
    case Send(p, n, msg, junk) =>
      s.(q := s.q.(mem := StartPush(Allocate(s.q.mem, n, msg, junk), Producer(p), n)),
         ec := Entered(s.ec, p), begun := s.begun + [Sent(p, msg)])
    case Produce(p) => ProduceStep(s, p)
    case Consume => ConsumeStep(s)
  }

  function NextChain(s: Sys, c: seq<Ptr>, a: Action): seq<Ptr> {
    if !Can(s, a) then c else
    match a
    case Send(_, _, _, _) => c
    case Produce(p) => if s.ec.sends[p].Pushing? then PushChain(s.q.mem, c, Producer(p)) else c
    case Consume => if s.run.InPop? && CanPop(s.q) then PopChain(s.q, c) else c
  }

  function After(acts: seq<Action>, stubSelf: Msg): Sys {
    if acts == [] then Start(stubSelf) else Next(After(acts[..|acts| - 1], stubSelf), acts[|acts| - 1])
  }

  function Chain(acts: seq<Action>, stubSelf: Msg): seq<Ptr> {
    if acts == [] then [Stub]
    else NextChain(After(acts[..|acts| - 1], stubSelf), Chain(acts[..|acts| - 1], stubSelf), acts[|acts| - 1])
  }

  // ---------- The queue inside the system ----------

  /** The node the running thread has taken and not yet deleted. */
  function InHand(s: Sys): set<Ptr> {
    match s.run
    case InPop(_) => if s.q.pop.Done? && s.q.pop.result != Null then {s.q.pop.result} else {}
    case Cancel(r) => {r}
    case GetCommand(r) => {r}
    case CallCommand(r, _) => {r}
    case DeleteCommand(r) => {r}
    case DeleteNull(r) => {r}
    case _ => {}
  }

  ghost predicate QueueOk(s: Sys, c: seq<Ptr>) {
    && Inv(s.q, c)
    && s.q.out == InHand(s)
    && Null !in InHand(s)
    && (s.run.InPop? <==> !s.q.pop.Idle?)
    && (forall p :: Producer(p) in s.q.mem.pushes <==> p in s.ec.sends && s.ec.sends[p].Pushing?)
  }

  /** What the rest needs of the shape invariant. */
  lemma Facts(s: Sys, c: seq<Ptr>)
    requires QueueOk(s, c)
    ensures |c| >= 1 && s.q.head == c[0] && !s.q.mem.fault
    ensures forall x | x in c :: x in s.q.mem.heap
    ensures forall x | x in InHand(s) :: x in s.q.mem.heap && x !in c && x != Null
    ensures forall t | t in s.q.mem.pushes && !s.q.mem.pushes[t].Link? ::
      s.q.mem.pushes[t].node in s.q.mem.heap && s.q.mem.pushes[t].node !in InHand(s)
  {
  }

  lemma QueueOkStart(stubSelf: Msg)
    ensures QueueOk(Start(stubSelf), [Stub]) && Contents(Start(stubSelf).q, [Stub]) == []
  {
    InitInv(stubSelf);
    assert Held(Start(stubSelf).q, [Stub]) == Held(Init(stubSelf), [Stub]);
  }

  lemma QueueOkProduce(s: Sys, c: seq<Ptr>, p: nat)
    requires QueueOk(s, c) && Can(s, Produce(p))
    ensures QueueOk(Next(s, Produce(p)), NextChain(s, c, Produce(p)))
    ensures s.ec.sends[p].Pushing? ==>
      Allows(Contents(s.q, c), PushEvent(s.q, Producer(p)),
             Contents(Next(s, Produce(p)).q, NextChain(s, c, Produce(p))))
    ensures forall x | x in s.q.mem.heap :: SelfOf(Next(s, Produce(p)).q.mem.heap, x) == SelfOf(s.q.mem.heap, x)
  {
    hide Inv, Contents, Allows;
    if s.ec.sends[p].Pushing? {
      PushStepKeeps(s.q, c, Producer(p));
      PushSelf(s.q.mem, Producer(p));
      var s' := Next(s, Produce(p));
      assert s'.q.out == InHand(s') && InHand(s') == InHand(s);
    }
  }

  lemma QueueOkConsume(s: Sys, c: seq<Ptr>)
    requires QueueOk(s, c) && Can(s, Consume)
    ensures QueueOk(Next(s, Consume), NextChain(s, c, Consume))
    ensures Allows(Contents(s.q, c), if s.run.InPop? then PopEvent(s.q) else Internal,
                   Contents(Next(s, Consume).q, NextChain(s, c, Consume)))
  {
    hide Linked;
    Facts(s, c);
    match s.run
    case InPop(site) =>
      if s.q.pop.Done? {
        EnterLeave(s.q, c, Idle);
      } else {
        QueueOkPop(s, c);
      }
    case Prepare => EnterLeave(s.q, c, LoadHead);
    case Cancel(r) =>
    case Commit => EnterLeave(s.q, c, LoadHead);
    case GetCommand(r) =>
    case CallCommand(r, id) =>
    case DeleteCommand(r) =>
      DeleteKeeps(s.q, c, r);
      EnterLeave(Delete(s.q, r), c, LoadHead);
    case DeleteNull(r) => DeleteKeeps(s.q, c, r);
  }

  lemma QueueOkPop(s: Sys, c: seq<Ptr>)
    requires QueueOk(s, c) && Can(s, Consume) && s.run.InPop? && CanPop(s.q)
    ensures QueueOk(Next(s, Consume), NextChain(s, c, Consume))
    ensures Allows(Contents(s.q, c), PopEvent(s.q), Contents(Next(s, Consume).q, NextChain(s, c, Consume)))
  {
    hide Inv, PopStep, PopChain, PopEvent, Allows, Contents;
    PopStepKeeps(s.q, c);
    PopFrame(s.q);
    if s.q.pop.StoreHead? {
      StoredHead(s, c);
    }
    var s' := Next(s, Consume);
    assert s'.q.out == InHand(s');
  }

  /** A running thread changes no message; it only deletes what it has in hand. */
  lemma ConsumeHeap(s: Sys, c: seq<Ptr>)
    requires QueueOk(s, c) && Can(s, Consume)
    ensures forall x | x in s.q.mem.heap && x !in InHand(s) :: x in Next(s, Consume).q.mem.heap
    ensures forall x | x in s.q.mem.heap && x in Next(s, Consume).q.mem.heap ::
      SelfOf(Next(s, Consume).q.mem.heap, x) == SelfOf(s.q.mem.heap, x)
    ensures !s.run.DeleteCommand? && !s.run.DeleteNull? ==>
      forall x | x in s.q.mem.heap :: x in Next(s, Consume).q.mem.heap
    ensures forall t: Thread | t.Producer? :: t in Next(s, Consume).q.mem.pushes <==> t in s.q.mem.pushes
    ensures forall t: Thread | t.Producer? && t in s.q.mem.pushes ::
      Next(s, Consume).q.mem.pushes[t] == s.q.mem.pushes[t]
  {
    hide Inv, PushStep;
    if s.run.InPop? && s.q.pop.PushStub? && CanPop(s.q) {
      PushSelf(s.q.mem, Consumer);
    }
  }

  lemma QueueOkNext(s: Sys, c: seq<Ptr>, a: Action)
    requires QueueOk(s, c)
    ensures QueueOk(Next(s, a), NextChain(s, c, a))
  {
    hide Linked;
    if Can(s, a) {
      match a
      case Send(p, n, msg, junk) => SendKeeps(s.q, c, Producer(p), n, msg, junk);
      case Produce(p) => QueueOkProduce(s, c, p);
      case Consume => QueueOkConsume(s, c);
    }
  }

  // ---------- Dispatch ----------

  function Commands(ids: seq<nat>): seq<Msg> {
    seq(|ids|, i requires 0 <= i < |ids| => Command(ids[i]))
  }

  /** Messages taken off the queue and not yet recorded as called. */
  function InProgress(s: Sys): seq<Msg> {
    match s.run
    case InPop(_) => if s.q.pop.Done? && s.q.pop.result != Null then [SelfOf(s.q.mem.heap, s.q.pop.result)] else []
    case Cancel(r) => [SelfOf(s.q.mem.heap, r)]
    case GetCommand(r) => [SelfOf(s.q.mem.heap, r)]
    case CallCommand(_, id) => [Command(id)]
    case DeleteNull(_) => [NullMsg]
    case Stopped => [NullMsg]
    case _ => []
  }

  ghost predicate DispatchOk(s: Sys, c: seq<Ptr>) {
    Messages(s.sent) == Commands(s.called) + InProgress(s) + Contents(s.q, c)
  }

  lemma DispatchProduce(s: Sys, c: seq<Ptr>, p: nat)
    requires QueueOk(s, c) && DispatchOk(s, c) && Can(s, Produce(p))
    ensures DispatchOk(Next(s, Produce(p)), NextChain(s, c, Produce(p)))
  {
    hide Inv, InProgress, QueueOk, Msgs, Commands;
    var s' := Next(s, Produce(p));
    QueueOkProduce(s, c, p);
    ProgressProduce(s, c, p);
    if s.ec.sends[p].Pushing? && Exchanges(s.q.mem, Producer(p)) {
      var m := SelfOf(s.q.mem.heap, s.q.mem.pushes[Producer(p)].node);
      assert Messages(s'.sent) == Messages(s.sent) + [m];
    }
  }

  lemma ProgressProduce(s: Sys, c: seq<Ptr>, p: nat)
    requires QueueOk(s, c) && Can(s, Produce(p))
    ensures InProgress(Next(s, Produce(p))) == InProgress(s)
  {
    hide Inv, PushStep;
    Facts(s, c);
    QueueOkProduce(s, c, p);
  }

  lemma DispatchConsume(s: Sys, c: seq<Ptr>)
    requires QueueOk(s, c) && DispatchOk(s, c) && Can(s, Consume)
    ensures DispatchOk(Next(s, Consume), NextChain(s, c, Consume))
  {
    hide Inv, PopStep, Messages, InProgress, Msgs, QueueOk, Can;
    var s' := Next(s, Consume);
    QueueOkConsume(s, c);
    ProgressConsume(s, c);
    if s.run.CallCommand? {
      assert Commands(s'.called) == Commands(s.called) + [Command(s.run.id)];
    }
  }

  /** How the message in progress changes with a step of the running thread. */
  lemma ProgressConsume(s: Sys, c: seq<Ptr>)
    requires QueueOk(s, c) && Can(s, Consume)
    ensures s.run.InPop? && s.q.pop.StoreHead? ==>
      InProgress(s) == [] && InProgress(Next(s, Consume)) == [SelfOf(s.q.mem.heap, s.q.pop.h)]
    ensures s.run.CallCommand? ==> InProgress(s) == [Command(s.run.id)] && InProgress(Next(s, Consume)) == []
    ensures !(s.run.InPop? && s.q.pop.StoreHead?) && !s.run.CallCommand? ==>
      InProgress(Next(s, Consume)) == InProgress(s)
  {
    hide Linked;
    Facts(s, c);
    if s.run.InPop? && s.q.pop.StoreHead? {
      StoredHead(s, c);
    }
  }

  lemma StoredHead(s: Sys, c: seq<Ptr>)
    requires QueueOk(s, c) && s.q.pop.StoreHead?
    ensures s.q.pop.h != Null && s.q.pop.h in s.q.mem.heap
  {
  }

  lemma DispatchNext(s: Sys, c: seq<Ptr>, a: Action)
    requires QueueOk(s, c) && DispatchOk(s, c)
    ensures DispatchOk(Next(s, a), NextChain(s, c, a))
  {
    hide Linked;
    if Can(s, a) {
      match a
      case Send(p, n, msg, junk) =>
        Facts(s, c);
        SendKeeps(s.q, c, Producer(p), n, msg, junk);
      case Produce(p) => DispatchProduce(s, c, p);
      case Consume => DispatchConsume(s, c);
    }
  }

  // ---------- Each producer's own order ----------

  ghost predicate OrderOk(s: Sys) {
    InOrder(s.begun, s.sent, s.q.mem)
  }

  lemma OrderNext(s: Sys, c: seq<Ptr>, a: Action)
    requires QueueOk(s, c) && OrderOk(s)
    ensures OrderOk(Next(s, a))
  {
    hide Inv, PopStep, InOrder;
    if Can(s, a) {
      Facts(s, c);
      match a
      case Send(p, n, msg, junk) => OrderBegin(s.begun, s.sent, s.q.mem, p, n, msg, junk);
      case Produce(p) => if s.ec.sends[p].Pushing? { OrderPush(s.begun, s.sent, s.q.mem, p); }
      case Consume =>
        ConsumeHeap(s, c);
        OrderFrame(s.begun, s.sent, s.q.mem, Next(s, a).q.mem);
    }
  }

  // ---------- Eventcount ----------

  ghost predicate EventcountOk(s: Sys, c: seq<Ptr>) {
    && (s.run == InPop(Recheck) || s.run.Commit? ==> s.ec.waiting || s.ec.sem > 0 || Posting(s.ec))
    && (s.run == InPop(Recheck) && s.q.pop.LoadTail? && |c| >= 2 ==> Awake(s.ec, s.q.mem))
    && (s.run == InPop(Recheck) && s.q.pop == Done(Null) && Contents(s.q, c) != [] ==> Awake(s.ec, s.q.mem))
    && (s.run.Commit? && Contents(s.q, c) != [] ==> Awake(s.ec, s.q.mem))
  }

  /** A step of a push, by any thread, leaves finished exchanges alone. */
  lemma PushingKeeps(s: Sys, c: seq<Ptr>, p: nat)
    requires QueueOk(s, c) && Can(s, Produce(p)) && s.ec.sends[p].Pushing?
    ensures var s' := Next(s, Produce(p));
      && (Posting(s.ec) <==> Posting(s'.ec))
      && (Awake(s.ec, s.q.mem) || Exchanges(s.q.mem, Producer(p)) ==> Awake(s'.ec, s'.q.mem))
  {
    hide Inv, PushStep;
    var s' := Next(s, Produce(p));
    PushSelf(s.q.mem, Producer(p));
    QueueStepKeeps(s.ec, s.q.mem, s'.ec, s'.q.mem);
    if Exchanges(s.q.mem, Producer(p)) {
      ExchangeLinks(s.q.mem, Producer(p));
      assert Poster(s'.ec, s'.q.mem, p);
    }
    if Posting(s'.ec) {
      var x :| x in s'.ec.sends && s'.ec.sends[x].Post?;
      assert x in s.ec.sends && s.ec.sends[x].Post?;
    }
  }

  /** Whoever is on its way stays on its way until it has posted, or seen that nobody waits. */
  lemma PostersStay(s: Sys, c: seq<Ptr>, p: nat)
    requires QueueOk(s, c) && Can(s, Produce(p))
    ensures var s' := Next(s, Produce(p));
      && (Posting(s.ec) ==> Posting(s'.ec) || s'.ec.sem > 0)
      && (s.ec.sends[p].ClearWaiting? ==> Posting(s'.ec))
      && (s.ec.sends[p].Pushing? && Exchanges(s.q.mem, Producer(p)) ==> Awake(s'.ec, s'.q.mem))
      && (Awake(s.ec, s.q.mem) ==> Awake(s'.ec, s'.q.mem) || (s.ec.sends[p].LoadWaiting? && !s.ec.waiting))
  {
    hide QueueOk, PushStep, Awake, Posting;
    if s.ec.sends[p].Pushing? {
      PushingKeeps(s, c, p);
    } else {
      NotifyKeeps(s.ec, s.q.mem, p);
    }
  }

  lemma ExchangeLinks(m: Mem, t: Thread)
    requires Exchanges(m, t)
    ensures Linking(PushStep(m, t), t)
  {
  }

  lemma EventcountProduce(s: Sys, c: seq<Ptr>, p: nat)
    requires QueueOk(s, c) && EventcountOk(s, c) && Can(s, Produce(p))
    ensures EventcountOk(Next(s, Produce(p)), NextChain(s, c, Produce(p)))
  {
    hide Inv, PushStep, Awake, Posting, Contents;
    PostersStay(s, c, p);
    QueueOkProduce(s, c, p);
    PostingIsAwake(s.ec, s.q.mem);
    PostingIsAwake(Next(s, Produce(p)).ec, Next(s, Produce(p)).q.mem);
  }

  /** A first node that is unlinked although others follow it will be linked and announced. */
  lemma UnlinkedIsAwake(s: Sys, c: seq<Ptr>)
    requires QueueOk(s, c) && !s.q.pop.PushStub?
    requires NextOf(s.q.mem, c[0]) == Null && |c| >= 2
    ensures Awake(s.ec, s.q.mem)
  {
    if !ProducerLinking(s.q.mem) {
      CutIsLinking(s.q, c);
      FirstUnlinked(s.q, c);
    }
    var t :| Linking(s.q.mem, t) && t.Producer?;
    assert Poster(s.ec, s.q.mem, t.id);
  }

  /** Without a step of its own, the running thread silences no producer. */
  lemma StillAwake(s: Sys, c: seq<Ptr>)
    requires QueueOk(s, c) && Can(s, Consume)
    ensures Posting(s.ec) ==> Posting(Next(s, Consume).ec)
    ensures !s.run.Commit? && Awake(s.ec, s.q.mem) ==> Awake(Next(s, Consume).ec, Next(s, Consume).q.mem)
  {
    hide Inv;
    var s' := Next(s, Consume);
    ConsumeHeap(s, c);
    if !s.run.Commit? {
      QueueStepKeeps(s.ec, s.q.mem, s'.ec, s'.q.mem);
    }
  }

  lemma EventcountConsume(s: Sys, c: seq<Ptr>)
    requires QueueOk(s, c) && EventcountOk(s, c) && Can(s, Consume)
    ensures EventcountOk(Next(s, Consume), NextChain(s, c, Consume))
  {
    hide Inv;
    StillAwake(s, c);
    QueueOkConsume(s, c);
    if s.run == InPop(Recheck) && CanPop(s.q) {
      var s', c' := Next(s, Consume), NextChain(s, c, Consume);
      assert (s'.q.pop.LoadTail? && |c'| >= 2) || (s'.q.pop == Done(Null) && Contents(s'.q, c') != []) ==>
        Awake(s.ec, s.q.mem) by {
        if s'.q.pop.LoadTail? && |c'| >= 2 {
          LongRecheck(s, c);
        } else if s'.q.pop == Done(Null) && Contents(s'.q, c') != [] {
          NullRecheck(s, c);
        }
      }
    }
  }

  /** A recheck that found the first of several nodes unlinked sees a producer on its way. */
  lemma LongRecheck(s: Sys, c: seq<Ptr>)
    requires QueueOk(s, c) && s.run == InPop(Recheck) && CanPop(s.q)
    requires PopStep(s.q).pop.LoadTail? && |PopChain(s.q, c)| >= 2
    ensures Awake(s.ec, s.q.mem)
  {
    assert c[0] in c;
    UnlinkedIsAwake(s, c);
  }

  /** A recheck that is about to fail on a non-empty queue sees a producer on its way. */
  lemma NullRecheck(s: Sys, c: seq<Ptr>)
    requires QueueOk(s, c) && EventcountOk(s, c) && s.run == InPop(Recheck) && CanPop(s.q)
    requires PopStep(s.q).pop == Done(Null) && Contents(s.q, c) != []
    ensures Awake(s.ec, s.q.mem)
  {
    assert c[0] in c;
    LoneStub(s.q.mem.heap, c);
    if !s.q.pop.LoadTail? && |c| >= 2 {
      UnlinkedIsAwake(s, c);
    }
  }

  lemma LoneStub(heap: map<Ptr, Cell>, c: seq<Ptr>)
    ensures |c| == 1 && c[0] == Stub ==> Msgs(heap, c) == []
  {
  }

  lemma EventcountSend(s: Sys, c: seq<Ptr>, p: nat, n: Ptr, msg: Msg, junk: Ptr)
    requires QueueOk(s, c) && EventcountOk(s, c) && Can(s, Send(p, n, msg, junk))
    ensures EventcountOk(Next(s, Send(p, n, msg, junk)), c)
  {
    var s' := Next(s, Send(p, n, msg, junk));
    SendKeeps(s.q, c, Producer(p), n, msg, junk);
    QueueStepKeeps(s.ec, s.q.mem, s'.ec, s'.q.mem);
  }

  // ---------- Everything, in every run ----------

  ghost predicate SysInv(s: Sys, c: seq<Ptr>) {
    QueueOk(s, c) && DispatchOk(s, c) && OrderOk(s) && EventcountOk(s, c)
  }

  lemma SysInvStart(stubSelf: Msg)
    ensures SysInv(Start(stubSelf), [Stub])
  {
    QueueOkStart(stubSelf);
  }

  lemma SysInvNext(s: Sys, c: seq<Ptr>, a: Action)
    requires SysInv(s, c)
    ensures SysInv(Next(s, a), NextChain(s, c, a))
  {
    QueueOkNext(s, c, a);
    DispatchNext(s, c, a);
    OrderNext(s, c, a);
    if Can(s, a) {
      match a
      case Send(p, n, msg, junk) => EventcountSend(s, c, p, n, msg, junk);
      case Produce(p) => EventcountProduce(s, c, p);
      case Consume => EventcountConsume(s, c);
    }
  }

  lemma {:induction false} SysInvAlways(acts: seq<Action>, stubSelf: Msg)
    ensures SysInv(After(acts, stubSelf), Chain(acts, stubSelf))
  {
    if acts == [] {
      SysInvStart(stubSelf);
    } else {
      var k := |acts| - 1;
      SysInvAlways(acts[..k], stubSelf);
      SysInvNext(After(acts[..k], stubSelf), Chain(acts[..k], stubSelf), acts[k]);
    }
  }
}
