/**
  `SignaledQueue` step by step: `send` pushes and then adds one to an eventfd counter,
  `nullmsg` pushes without signalling, and `receive` reads and zeroes the counter and
  takes that many nodes, spinning on `pop` until it gets each of them.
 */
module SignaledQueueSteps {
  import opened MpscMemory
  import opened Fifo
  import opened Sending
  import opened IntMpscSteps
  import opened IntMpscRuns

  datatype SendPc =
    | Pushing(signals: bool)   // inside queue.push, of send or of nullmsg
    | Signal                   // signaler.send

  /** `left` counts the iterations of `receive` not yet finished, the current one included. */
  datatype RecvPc =
    | Outside
    | Popping(left: nat)
    | GetCommand(r: Ptr, left: nat)
    | CallCommand(r: Ptr, id: nat, left: nat)
    | DeleteCommand(r: Ptr, left: nat)
    | DeleteNull(r: Ptr, left: nat)

  /**
    History, read by no step: `sent` in exchange order, `begun` in the order the sends began,
    `handled` and `called` in order, and `lost`, the signals that were dropped.
   */
  datatype Sys = Sys(q: Queue, counter: nat, sends: map<nat, SendPc>, recv: RecvPc,
                     sent: seq<Sent>, begun: seq<Sent>, handled: seq<Msg>, called: seq<nat>, lost: nat)

  datatype Action =
    | Send(p: nat, n: Ptr, id: nat, junk: Ptr)
    | SendNull(p: nat, n: Ptr, junk: Ptr)
    | Produce(p: nat)
    | Consume

  function Start(stubSelf: Msg): Sys {
    Sys(Init(stubSelf), 0, map[], Outside, [], [], [], [], 0)
  }

  /** The largest value an eventfd counter can have; adding to it fails, as the descriptor does not block. */
  const EVENTFD_MAX: nat := 0xFFFF_FFFF_FFFF_FFFE

  /** A 64-bit value stored in an `int`. */
  function AsInt(x: nat): int {
    var low := x % 0x1_0000_0000;
    if low < 0x8000_0000 then low else low - 0x1_0000_0000
  }

  /** The `int` is the value congruent to it modulo 2^32. */
  lemma AsIntIsCongruent(x: nat)
    ensures -2147483648 <= AsInt(x) <= 2147483647
    ensures exists q: nat :: IsCongruent(x, q)
  {
    var high := x / 0x1_0000_0000;
    assert x == high * 4294967296 + x % 0x1_0000_0000;
    assert IsCongruent(x, high) || IsCongruent(x, high + 1);
  }

  predicate IsCongruent(x: nat, q: nat) {
    x == q * 4294967296 + AsInt(x)
  }

  /** How often the loop of `receive` runs for a counter value. */
  function Rounds(counter: nat): nat {
    if AsInt(counter) > 0 then AsInt(counter) else 0
  }

  lemma RoundsExact(counter: nat)
    ensures Rounds(counter) <= counter
    ensures Rounds(counter) == counter <==> counter < 2147483648
  {
  }

  /** Reading a zero counter fails the assertion in `Signaler::recv`, so `receive` waits for a signal. */
  predicate Can(s: Sys, a: Action) {
    match a
    case Send(p, n, _, _) => p !in s.sends && Producer(p) !in s.q.mem.pushes && n.Node? && n !in s.q.mem.heap
    case SendNull(p, n, _) => p !in s.sends && Producer(p) !in s.q.mem.pushes && n.Node? && n !in s.q.mem.heap
    case Produce(p) => p in s.sends && (s.sends[p].Pushing? ==> Producer(p) in s.q.mem.pushes)
    case Consume =>
      && (s.recv.Outside? ==> s.counter > 0)
      && (s.recv.Popping? ==> CanPop(s.q) || s.q.pop.Done?)
  }

  function Begin(s: Sys, p: nat, n: Ptr, msg: Msg, junk: Ptr): Sys {
    s.(q := s.q.(mem := StartPush(Allocate(s.q.mem, n, msg, junk), Producer(p), n)),
       sends := s.sends[p := Pushing(msg.Command?)], begun := s.begun + [Sent(p, msg)])
  }

  function ProduceStep(s: Sys, p: nat): Sys
    requires Can(s, Produce(p))
  {
    match s.sends[p]
    case Pushing(signals) =>
      var t := Producer(p);
      var m := s.q.mem;
      s.(q := s.q.(mem := PushStep(m, t)),
         sends := if !Linking(m, t) then s.sends else if signals then s.sends[p := Signal] else s.sends - {p},
         sent := SentAfter(s.sent, m, p))
    case Signal =>
      if s.counter < EVENTFD_MAX then s.(counter := s.counter + 1, sends := s.sends - {p})
      else s.(sends := s.sends - {p}, lost := s.lost + 1)
  }

  /** `receive` reads and zeroes the counter and enters its loop, unless that does not run at all. */
  function Enter(s: Sys): Sys {
    var rounds := Rounds(s.counter);
    RoundsExact(s.counter);
    var read := s.(counter := 0, lost := s.lost + s.counter - rounds);
    if rounds == 0 then read else read.(recv := Popping(rounds), q := s.q.(pop := LoadHead))
  }

  /** The next iteration of the loop in `receive`, or its end. */
  function Iterate(s: Sys, left: nat): Sys {
    if left <= 1 then s.(recv := Outside) else s.(recv := Popping(left - 1), q := s.q.(pop := LoadHead))
  }

  function ConsumeStep(s: Sys): Sys
    requires Can(s, Consume)
  {
    match s.recv
    case Outside => Enter(s)
    case Popping(left) =>
      if !s.q.pop.Done? then s.(q := PopStep(s.q))
      else if s.q.pop.result == Null then s.(q := s.q.(pop := LoadHead))
      else s.(q := s.q.(pop := Idle), recv := GetCommand(s.q.pop.result, left))
    case GetCommand(r, left) =>
      s.(q := s.q.(mem := Touch(s.q.mem, r)),
         recv := match SelfOf(s.q.mem.heap, r)
                 case NullMsg => DeleteNull(r, left)
                 case Command(id) => CallCommand(r, id, left))
    case CallCommand(r, id, left) => s.(called := s.called + [id], recv := DeleteCommand(r, left))
    case DeleteCommand(r, left) =>
      Iterate(s.(q := Delete(s.q, r), handled := s.handled + [SelfOf(s.q.mem.heap, r)]), left)
    case DeleteNull(r, left) =>
      Iterate(s.(q := Delete(s.q, r), handled := s.handled + [SelfOf(s.q.mem.heap, r)]), left)
  }

  function Next(s: Sys, a: Action): Sys {
    if !Can(s, a) then s else
    match a
    case Send(p, n, id, junk) => Begin(s, p, n, Command(id), junk)
    case SendNull(p, n, junk) => Begin(s, p, n, NullMsg, junk)
    case Produce(p) => ProduceStep(s, p)
    case Consume => ConsumeStep(s)
  }

  function NextChain(s: Sys, c: seq<Ptr>, a: Action): seq<Ptr> {
    if !Can(s, a) then c else
    match a
    case Produce(p) => if s.sends[p].Pushing? then PushChain(s.q.mem, c, Producer(p)) else c
    case Consume => if s.recv.Popping? && CanPop(s.q) then PopChain(s.q, c) else c
    case _ => c
  }

  function After(acts: seq<Action>, stubSelf: Msg): Sys {
    if acts == [] then Start(stubSelf) else Next(After(acts[..|acts| - 1], stubSelf), acts[|acts| - 1])
  }

  function Chain(acts: seq<Action>, stubSelf: Msg): seq<Ptr> {
    if acts == [] then [Stub]
    else NextChain(After(acts[..|acts| - 1], stubSelf), Chain(acts[..|acts| - 1], stubSelf), acts[|acts| - 1])
  }

  // ---------- Invariants ----------

  function InHand(s: Sys): set<Ptr> {
    match s.recv
    case Outside => {}
    case Popping(_) => if s.q.pop.Done? && s.q.pop.result != Null then {s.q.pop.result} else {}
    case GetCommand(r, _) => {r}
    case CallCommand(r, _, _) => {r}
    case DeleteCommand(r, _) => {r}
    case DeleteNull(r, _) => {r}
  }

  ghost predicate QueueOk(s: Sys, c: seq<Ptr>) {
    && Inv(s.q, c)
    && s.q.out == InHand(s)
    && Null !in InHand(s)
    && (s.recv.Popping? <==> !s.q.pop.Idle?)
    && (forall p :: Producer(p) in s.q.mem.pushes <==> p in s.sends && s.sends[p].Pushing?)
  }

  /** Sends that have put their node in the queue and not yet signalled it. */
  function Unsignalled(s: Sys): set<nat> {
    set p | p in s.sends && if s.sends[p].Pushing? then s.sends[p].signals && Linking(s.q.mem, Producer(p)) else true
  }

  function Left(s: Sys): nat {
    if s.recv.Outside? then 0 else s.recv.left
  }

  function Nulls(ms: seq<Msg>): nat {
    if ms == [] then 0 else Nulls(ms[..|ms| - 1]) + if ms[|ms| - 1].NullMsg? then 1 else 0
  }

  /**
    Conservation: the nodes queued or in the hands of `receive` are those the counter
    announces, those the running `receive` still has to take, those about to be
    signalled, one for every null message ever pushed and one for every signal lost.
   */
  ghost predicate Conserved(s: Sys, c: seq<Ptr>) {
    |Contents(s.q, c)| + |InHand(s)| == s.counter + Left(s) + |Unsignalled(s)| + Nulls(Messages(s.sent)) + s.lost
  }

  /** Messages taken off the queue whose iteration is not finished. */
  function InProgress(s: Sys): seq<Msg> {
    match s.recv
    case Outside => []
    case Popping(_) => if s.q.pop.Done? && s.q.pop.result != Null then [SelfOf(s.q.mem.heap, s.q.pop.result)] else []
    case GetCommand(r, _) => [SelfOf(s.q.mem.heap, r)]
    case CallCommand(r, _, _) => [SelfOf(s.q.mem.heap, r)]
    case DeleteCommand(r, _) => [SelfOf(s.q.mem.heap, r)]
    case DeleteNull(r, _) => [SelfOf(s.q.mem.heap, r)]
  }

  ghost predicate DispatchOk(s: Sys, c: seq<Ptr>) {
    && Messages(s.sent) == s.handled + InProgress(s) + Contents(s.q, c)
    && s.called == Ids(s.handled) + (if s.recv.DeleteCommand? then Ids(InProgress(s)) else [])
    && (s.recv.CallCommand? ==> SelfOf(s.q.mem.heap, s.recv.r) == Command(s.recv.id))
    && (s.recv.DeleteCommand? ==> SelfOf(s.q.mem.heap, s.recv.r).Command?)
    && (s.recv.DeleteNull? ==> SelfOf(s.q.mem.heap, s.recv.r).NullMsg?)
    && (!s.recv.Outside? ==> s.recv.left >= 1)
  }

  /** Sends push commands and only null messages go unsignalled. */
  ghost predicate KindOk(s: Sys) {
    forall p | p in s.sends && s.sends[p].Pushing? && Producer(p) in s.q.mem.pushes && !Linking(s.q.mem, Producer(p)) ::
      SelfOf(s.q.mem.heap, s.q.mem.pushes[Producer(p)].node).Command? == s.sends[p].signals
  }

  lemma Facts(s: Sys, c: seq<Ptr>)
    requires QueueOk(s, c)
    ensures |c| >= 1 && !s.q.mem.fault
    ensures forall x | x in c :: x in s.q.mem.heap
    ensures forall x | x in InHand(s) :: x in s.q.mem.heap && x !in c && x != Null
    ensures forall t | t in s.q.mem.pushes && !s.q.mem.pushes[t].Link? ::
      s.q.mem.pushes[t].node in s.q.mem.heap && s.q.mem.pushes[t].node !in InHand(s)
    ensures s.q.pop.StoreHead? ==> s.q.pop.h != Null && s.q.pop.h in s.q.mem.heap
  {
  }

  // ---------- The queue ----------

  lemma BeginKeeps(s: Sys, c: seq<Ptr>, p: nat, n: Ptr, msg: Msg, junk: Ptr)
    requires QueueOk(s, c) && p !in s.sends && Producer(p) !in s.q.mem.pushes && n.Node? && n !in s.q.mem.heap
    ensures QueueOk(Begin(s, p, n, msg, junk), c)
    ensures Contents(Begin(s, p, n, msg, junk).q, c) == Contents(s.q, c)
  {
    hide Linked;
    SendKeeps(s.q, c, Producer(p), n, msg, junk);
  }

  lemma QueueProduce(s: Sys, c: seq<Ptr>, p: nat)
    requires QueueOk(s, c) && Can(s, Produce(p))
    ensures QueueOk(Next(s, Produce(p)), NextChain(s, c, Produce(p)))
    ensures s.sends[p].Pushing? ==>
      Allows(Contents(s.q, c), PushEvent(s.q, Producer(p)),
             Contents(Next(s, Produce(p)).q, NextChain(s, c, Produce(p))))
  {
    hide Inv, Contents, Allows;
    if s.sends[p].Pushing? {
      PushStepKeeps(s.q, c, Producer(p));
      PushSelf(s.q.mem, Producer(p));
      var s' := Next(s, Produce(p));
      assert s'.q.out == InHand(s') && InHand(s') == InHand(s);
    }
  }

  lemma QueuePop(s: Sys, c: seq<Ptr>)
    requires QueueOk(s, c) && s.recv.Popping? && CanPop(s.q)
    ensures QueueOk(Next(s, Consume), NextChain(s, c, Consume))
    ensures Allows(Contents(s.q, c), PopEvent(s.q), Contents(Next(s, Consume).q, NextChain(s, c, Consume)))
  {
    hide Inv, PopStep, PopChain, PopEvent, Allows, Contents, Rounds, AsInt, PushStep, Delete;
    Facts(s, c);
    PopStepKeeps(s.q, c);
    PopFrame(s.q);
    var s' := Next(s, Consume);
    assert s'.q.out == InHand(s');
  }

  lemma QueueConsume(s: Sys, c: seq<Ptr>)
    requires QueueOk(s, c) && Can(s, Consume)
    ensures QueueOk(Next(s, Consume), NextChain(s, c, Consume))
    ensures Allows(Contents(s.q, c), if s.recv.Popping? then PopEvent(s.q) else Internal,
                   Contents(Next(s, Consume).q, NextChain(s, c, Consume)))
  {
    hide Linked, Rounds, AsInt, PopStep, Msgs, PopChain;
    Facts(s, c);
    match s.recv
    case Outside => EnterLeave(s.q, c, LoadHead);
    case Popping(left) =>
      if !s.q.pop.Done? {
        QueuePop(s, c);
      } else {
        EnterLeave(s.q, c, LoadHead);
        EnterLeave(s.q, c, Idle);
      }
    case GetCommand(r, left) =>
    case CallCommand(r, id, left) =>
    case DeleteCommand(r, left) =>
      DeleteKeeps(s.q, c, r);
      EnterLeave(Delete(s.q, r), c, LoadHead);
    case DeleteNull(r, left) =>
      DeleteKeeps(s.q, c, r);
      EnterLeave(Delete(s.q, r), c, LoadHead);
  }

  lemma ConsumeHeap(s: Sys, c: seq<Ptr>)
    requires QueueOk(s, c) && Can(s, Consume)
    ensures forall x | x in s.q.mem.heap && x !in InHand(s) :: x in Next(s, Consume).q.mem.heap
    ensures forall x | x in s.q.mem.heap && x in Next(s, Consume).q.mem.heap ::
      SelfOf(Next(s, Consume).q.mem.heap, x) == SelfOf(s.q.mem.heap, x)
    ensures !s.recv.DeleteCommand? && !s.recv.DeleteNull? ==>
      forall x | x in s.q.mem.heap :: x in Next(s, Consume).q.mem.heap
    ensures forall t: Thread | t.Producer? :: t in Next(s, Consume).q.mem.pushes <==> t in s.q.mem.pushes
    ensures forall t: Thread | t.Producer? && t in s.q.mem.pushes ::
      Next(s, Consume).q.mem.pushes[t] == s.q.mem.pushes[t]
  {
    hide Inv, PushStep;
    if s.recv.Popping? && s.q.pop.PushStub? && CanPop(s.q) {
      PushSelf(s.q.mem, Consumer);
    }
  }

  // ---------- Dispatch ----------

  lemma ProgressProduce(s: Sys, c: seq<Ptr>, p: nat)
    requires QueueOk(s, c) && Can(s, Produce(p))
    ensures InProgress(Next(s, Produce(p))) == InProgress(s)
    ensures forall x | x in InHand(s) :: SelfOf(Next(s, Produce(p)).q.mem.heap, x) == SelfOf(s.q.mem.heap, x)
  {
    hide Inv;
    Facts(s, c);
    if s.sends[p].Pushing? {
      PushSelf(s.q.mem, Producer(p));
    }
  }

  lemma DispatchProduce(s: Sys, c: seq<Ptr>, p: nat)
    requires QueueOk(s, c) && DispatchOk(s, c) && Can(s, Produce(p))
    ensures DispatchOk(Next(s, Produce(p)), NextChain(s, c, Produce(p)))
  {
    hide Inv, InProgress, Msgs, Ids, PushStep, Messages;
    QueueProduce(s, c, p);
    ProgressProduce(s, c, p);
    if s.sends[p].Pushing? && Exchanges(s.q.mem, Producer(p)) {
      MessagesAppend(s.sent, Sent(p, SelfOf(s.q.mem.heap, s.q.mem.pushes[Producer(p)].node)));
    }
  }

  lemma DispatchBegin(s: Sys, c: seq<Ptr>, p: nat, n: Ptr, msg: Msg, junk: Ptr)
    requires QueueOk(s, c) && DispatchOk(s, c) && p !in s.sends && Producer(p) !in s.q.mem.pushes && n.Node? &&
      n !in s.q.mem.heap
    ensures DispatchOk(Begin(s, p, n, msg, junk), c)
  {
    hide Inv, Msgs, Ids;
    BeginKeeps(s, c, p, n, msg, junk);
    Facts(s, c);
  }

  /** How the message in progress changes with a step of `receive`. */
  lemma ProgressConsume(s: Sys, c: seq<Ptr>)
    requires QueueOk(s, c) && Can(s, Consume)
    ensures s.recv.Popping? && s.q.pop.StoreHead? ==>
      InProgress(s) == [] && InProgress(Next(s, Consume)) == [SelfOf(s.q.mem.heap, s.q.pop.h)]
    ensures s.recv.DeleteCommand? || s.recv.DeleteNull? ==>
      InProgress(s) == [SelfOf(s.q.mem.heap, s.recv.r)] && InProgress(Next(s, Consume)) == []
    ensures !(s.recv.Popping? && s.q.pop.StoreHead?) && !s.recv.DeleteCommand? && !s.recv.DeleteNull? ==>
      InProgress(Next(s, Consume)) == InProgress(s)
    ensures s.recv.GetCommand? || s.recv.CallCommand? ==>
      s.recv.r in s.q.mem.heap && Next(s, Consume).q.mem.heap == s.q.mem.heap
  {
    hide Linked;
    Facts(s, c);
  }

  lemma DispatchDelete(s: Sys, c: seq<Ptr>)
    requires QueueOk(s, c) && DispatchOk(s, c) && Can(s, Consume) && (s.recv.DeleteCommand? || s.recv.DeleteNull?)
    ensures DispatchOk(Next(s, Consume), NextChain(s, c, Consume))
  {
    hide Inv, InProgress, Msgs, QueueOk, Ids, Delete;
    QueueConsume(s, c);
    ProgressConsume(s, c);
    IdsAppend(s.handled, SelfOf(s.q.mem.heap, s.recv.r));
    OneCommand(SelfOf(s.q.mem.heap, s.recv.r));
  }

  lemma DispatchConsume(s: Sys, c: seq<Ptr>)
    requires QueueOk(s, c) && DispatchOk(s, c) && Can(s, Consume)
    ensures DispatchOk(Next(s, Consume), NextChain(s, c, Consume))
  {
    hide Inv, InProgress, Msgs, QueueOk, PopStep, Delete, Ids;
    if s.recv.DeleteCommand? || s.recv.DeleteNull? {
      DispatchDelete(s, c);
    } else {
      QueueConsume(s, c);
      ProgressConsume(s, c);
      if s.recv.CallCommand? {
        OneCommand(SelfOf(s.q.mem.heap, s.recv.r));
        CalledInProgress(s);
      }
    }
  }

  lemma OneCommand(m: Msg)
    ensures m.Command? ==> Ids([m]) == [m.id]
  {
  }

  lemma CalledInProgress(s: Sys)
    ensures s.recv.CallCommand? ==> InProgress(s) == [SelfOf(s.q.mem.heap, s.recv.r)]
  {
  }

  // ---------- Each producer's own order ----------

  ghost predicate OrderOk(s: Sys) {
    InOrder(s.begun, s.sent, s.q.mem)
  }

  lemma OrderNext(s: Sys, c: seq<Ptr>, a: Action)
    requires QueueOk(s, c) && OrderOk(s)
    ensures OrderOk(Next(s, a))
  {
    hide Inv, PopStep, InOrder;
    if Can(s, a) {
      Facts(s, c);
      match a
      case Send(p, n, id, junk) => OrderBegin(s.begun, s.sent, s.q.mem, p, n, Command(id), junk);
      case SendNull(p, n, junk) => OrderBegin(s.begun, s.sent, s.q.mem, p, n, NullMsg, junk);
      case Produce(p) => if s.sends[p].Pushing? { OrderPush(s.begun, s.sent, s.q.mem, p); }
      case Consume =>
        ConsumeHeap(s, c);
        OrderFrame(s.begun, s.sent, s.q.mem, Next(s, a).q.mem);
    }
  }

  // ---------- Conservation ----------

  lemma KindKeeps(s: Sys, c: seq<Ptr>, a: Action)
    requires QueueOk(s, c) && KindOk(s)
    ensures KindOk(Next(s, a))
  {
    hide Inv, PopStep;
    if Can(s, a) {
      Facts(s, c);
      match a
      case Send(p, n, id, junk) =>
      case SendNull(p, n, junk) =>
      case Produce(p) => if s.sends[p].Pushing? { PushSelf(s.q.mem, Producer(p)); }
      case Consume => ConsumeHeap(s, c);
    }
  }

  lemma UnsignalledProduce(s: Sys, c: seq<Ptr>, p: nat)
    requires QueueOk(s, c) && Can(s, Produce(p))
    ensures var s' := Next(s, Produce(p));
      && Unsignalled(s') - {p} == Unsignalled(s) - {p}
      && (s.sends[p].Signal? ==> p in Unsignalled(s) && p !in Unsignalled(s'))
      && (s.sends[p].Pushing? && Exchanges(s.q.mem, Producer(p)) ==>
            p !in Unsignalled(s) && (p in Unsignalled(s') <==> s.sends[p].signals))
      && (s.sends[p].Pushing? && !Exchanges(s.q.mem, Producer(p)) ==>
            (p in Unsignalled(s') <==> p in Unsignalled(s)))
  {
    hide Inv;
    if s.sends[p].Pushing? {
      PushSelf(s.q.mem, Producer(p));
    }
  }

  lemma NullsAppend(ms: seq<Msg>, m: Msg)
    ensures Nulls(ms + [m]) == Nulls(ms) + if m.NullMsg? then 1 else 0
  {
  }

  lemma ConservedProduce(s: Sys, c: seq<Ptr>, p: nat)
    requires QueueOk(s, c) && KindOk(s) && Conserved(s, c) && Can(s, Produce(p))
    ensures Conserved(Next(s, Produce(p)), NextChain(s, c, Produce(p)))
  {
    hide Inv, Unsignalled, Nulls, PushStep, Msgs, Messages;
    var s' := Next(s, Produce(p));
    QueueProduce(s, c, p);
    UnsignalledProduce(s, c, p);
    RemoveOne(Unsignalled(s), p);
    RemoveOne(Unsignalled(s'), p);
    if s.sends[p].Pushing? && Exchanges(s.q.mem, Producer(p)) {
      var m := SelfOf(s.q.mem.heap, s.q.mem.pushes[Producer(p)].node);
      MessagesAppend(s.sent, Sent(p, m));
      NullsAppend(Messages(s.sent), m);
    }
  }

  lemma UnsignalledOthers(s: Sys, c: seq<Ptr>, a: Action)
    requires QueueOk(s, c) && Can(s, a) && !a.Produce?
    ensures Unsignalled(Next(s, a)) == Unsignalled(s)
  {
    hide Inv, PopStep;
    if a.Consume? {
      ConsumeHeap(s, c);
    }
  }

  lemma ConservedConsume(s: Sys, c: seq<Ptr>)
    requires QueueOk(s, c) && DispatchOk(s, c) && Conserved(s, c) && Can(s, Consume)
    ensures Conserved(Next(s, Consume), NextChain(s, c, Consume))
  {
    hide Inv, Unsignalled, Nulls, Msgs, DispatchOk;
    QueueConsume(s, c);
    UnsignalledOthers(s, c, Consume);
    assert !s.recv.Outside? ==> s.recv.left >= 1 by { SomeLeft(s, c); }
    Facts(s, c);
  }

  lemma SomeLeft(s: Sys, c: seq<Ptr>)
    requires DispatchOk(s, c)
    ensures !s.recv.Outside? ==> s.recv.left >= 1
  {
  }

  lemma ConservedNext(s: Sys, c: seq<Ptr>, a: Action)
    requires QueueOk(s, c) && KindOk(s) && DispatchOk(s, c) && Conserved(s, c)
    ensures Conserved(Next(s, a), NextChain(s, c, a))
  {
    hide QueueOk, KindOk, DispatchOk, Contents, Unsignalled;
    if Can(s, a) {
      match a
      case Send(p, n, id, junk) => UnsignalledOthers(s, c, a); BeginKeeps(s, c, p, n, Command(id), junk);
      case SendNull(p, n, junk) => UnsignalledOthers(s, c, a); BeginKeeps(s, c, p, n, NullMsg, junk);
      case Produce(p) => ConservedProduce(s, c, p);
      case Consume => ConservedConsume(s, c);
    }
  }

  ghost predicate SysInv(s: Sys, c: seq<Ptr>) {
    QueueOk(s, c) && KindOk(s) && OrderOk(s) && DispatchOk(s, c) && Conserved(s, c)
  }

  lemma SysInvNext(s: Sys, c: seq<Ptr>, a: Action)
    requires SysInv(s, c)
    ensures SysInv(Next(s, a), NextChain(s, c, a))
  {
    hide QueueOk, KindOk, OrderOk, DispatchOk, Conserved;
    KindKeeps(s, c, a);
    OrderNext(s, c, a);
    ConservedNext(s, c, a);
    if Can(s, a) {
      match a
      case Send(p, n, id, junk) =>
        BeginKeeps(s, c, p, n, Command(id), junk);
        DispatchBegin(s, c, p, n, Command(id), junk);
      case SendNull(p, n, junk) => BeginKeeps(s, c, p, n, NullMsg, junk); DispatchBegin(s, c, p, n, NullMsg, junk);
      case Produce(p) => QueueProduce(s, c, p); DispatchProduce(s, c, p);
      case Consume => QueueConsume(s, c); DispatchConsume(s, c);
    }
  }

  lemma {:induction false} SysInvAlways(acts: seq<Action>, stubSelf: Msg)
    ensures SysInv(After(acts, stubSelf), Chain(acts, stubSelf))
  {
    if acts == [] {
      InitInv(stubSelf);
      assert Unsignalled(Start(stubSelf)) == {};
    } else {
      hide SysInv;
      var k := |acts| - 1;
      SysInvAlways(acts[..k], stubSelf);
      SysInvNext(After(acts[..k], stubSelf), Chain(acts[..k], stubSelf), acts[k]);
    }
  }
}
