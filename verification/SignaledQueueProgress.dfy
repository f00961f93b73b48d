/**
  Progress of `SignaledQueue`: sends are wait-free, `receive` handles what the counter
  announces, and every reachable state can come to rest.
 */
module SignaledQueueProgress {
  import opened MpscMemory
  import opened Fifo
  import opened Sending
  import opened IntMpscSteps
  import opened IntMpscRuns
  import opened SignaledQueueSteps
  import opened SignaledQueueTheorems

  // ---------- Sends ----------

  /** The steps of a `send` or `nullmsg` still to come. */
  function RankOf(s: Sys, p: nat): nat {
    if p !in s.sends then 0
    else match s.sends[p]
      case Pushing(signals) => PushRank(s.q.mem, Producer(p)) + if signals then 1 else 0
      case Signal => 1
  }

  lemma ProduceRank(s: Sys, c: seq<Ptr>, p: nat)
    requires QueueOk(s, c) && p in s.sends
    ensures Can(s, Produce(p)) && 1 <= RankOf(s, p) <= 4
    ensures RankOf(Next(s, Produce(p)), p) < RankOf(s, p)
    ensures forall x | x != p :: RankOf(Next(s, Produce(p)), x) == RankOf(s, x)
    ensures Next(s, Produce(p)).sends.Keys <= s.sends.Keys
    ensures RankOf(Next(s, Produce(p)), p) == 0 <==> p !in Next(s, Produce(p)).sends
  {
    hide Inv, PushStep;
    assert s.sends[p].Pushing? ==> Producer(p) in s.q.mem.pushes;
    if s.sends[p].Pushing? {
      PushProgress(s.q.mem, Producer(p));
      PushSelf(s.q.mem, Producer(p));
    }
  }

  /**
    Any thread that is not inside `send` or `nullmsg` can begin either, at any time; the
    latter is one step shorter, as it does not signal.
   */
  lemma SendBegins(acts: seq<Action>, stubSelf: Msg, p: nat, n: Ptr, id: nat, junk: Ptr)
    ensures var s := After(acts, stubSelf);
      var s', s'' := Next(s, Send(p, n, id, junk)), Next(s, SendNull(p, n, junk));
      if p !in s.sends && n.Node? && n !in s.q.mem.heap
      then p in s'.sends && RankOf(s', p) == 4 && s'.begun == s.begun + [Sent(p, Command(id))]
        && p in s''.sends && RankOf(s'', p) == 3 && s''.begun == s.begun + [Sent(p, NullMsg)]
      else s' == s && s'' == s
  {
    SysInvAlways(acts, stubSelf);
    hide After, Inv;
    assert QueueOk(After(acts, stubSelf), Chain(acts, stubSelf));
  }

  /** No other action holds a send up or moves it. */
  lemma OtherRank(s: Sys, c: seq<Ptr>, a: Action, p: nat)
    requires QueueOk(s, c) && p in s.sends && a != Produce(p)
    ensures RankOf(Next(s, a), p) == RankOf(s, p)
  {
    hide Inv, PushStep, PopStep;
    if Can(s, a) {
      match a
      case Produce(x) => ProduceRank(s, c, x);
      case Consume => ConsumeHeap(s, c);
      case _ =>
    }
  }

  /** The steps of producer `p` among some actions. */
  function StepsOf(acts: seq<Action>, p: nat): nat {
    if acts == [] then 0
    else StepsOf(acts[..|acts| - 1], p) + if acts[|acts| - 1] == Produce(p) then 1 else 0
  }

  /** A send is never blocked and ends within four steps of its own, whatever the other threads do. */
  lemma {:induction false} SendIsWaitFree(acts: seq<Action>, stubSelf: Msg, i: nat, p: nat)
    requires i <= |acts|
    requires forall k | i <= k <= |acts| :: p in After(acts[..k], stubSelf).sends
    ensures Can(After(acts, stubSelf), Produce(p))
    ensures StepsOf(acts[i..], p) + RankOf(After(acts, stubSelf), p) <= 4 && StepsOf(acts[i..], p) < 4
  {
    hide QueueOk, KindOk, OrderOk, DispatchOk, Conserved, Next, NextChain, Can, RankOf;
    assert acts[..|acts|] == acts;
    SysInvAlways(acts, stubSelf);
    assert p in After(acts[..|acts|], stubSelf).sends;
    ProduceRank(After(acts, stubSelf), Chain(acts, stubSelf), p);
    if i < |acts| {
      var k := |acts| - 1;
      var before := acts[..k];
      forall x | i <= x <= k ensures acts[..x] == before[..x] {
      }
      SendIsWaitFree(before, stubSelf, i, p);
      SysInvAlways(before, stubSelf);
      assert p in After(acts[..k], stubSelf).sends;
      var s, c := After(before, stubSelf), Chain(before, stubSelf);
      if acts[k] == Produce(p) {
        ProduceRank(s, c, p);
      } else {
        OtherRank(s, c, acts[k], p);
      }
      assert acts[i..][..|acts[i..]| - 1] == before[i..] && acts[i..][|acts[i..]| - 1] == acts[k];
    }
  }

  /** Steps of sends already begun only. */
  ghost predicate Producing(more: seq<Action>) {
    forall a | a in more :: a.Produce?
  }

  lemma ProducingParts(a: seq<Action>, b: seq<Action>)
    ensures Producing([])
    ensures Producing(a) && Producing(b) ==> Producing(a + b)
  {
  }

  /** What a producer's step leaves alone. */
  lemma ProduceFrame(s: Sys, p: nat)
    ensures var s' := Next(s, Produce(p));
      s'.recv == s.recv && s'.handled == s.handled && s'.called == s.called && s'.begun == s.begun
  {
  }

  /** A producer that goes on ends its send. */
  lemma {:induction false} FinishOne(acts: seq<Action>, stubSelf: Msg, p: nat) returns (more: seq<Action>)
    requires p in After(acts, stubSelf).sends
    ensures Producing(more)
    ensures var s, s' := After(acts, stubSelf), After(acts + more, stubSelf);
      && p !in s'.sends && s'.sends.Keys <= s.sends.Keys
      && s'.recv == s.recv && s'.handled == s.handled && s'.called == s.called && s'.begun == s.begun
    decreases RankOf(After(acts, stubSelf), p)
  {
    hide QueueOk, Next, Can, RankOf;
    var s, c, a := After(acts, stubSelf), Chain(acts, stubSelf), Produce(p);
    SysInvAlways(acts, stubSelf);
    ProduceRank(s, c, p);
    ProduceFrame(s, p);
    AfterAppend(acts, a, stubSelf);
    if p in Next(s, a).sends {
      var rest := FinishOne(acts + [a], stubSelf, p);
      more := [a] + rest;
      assert acts + more == acts + [a] + rest;
    } else {
      more := [a];
    }
  }

  /** The sends in progress can all be ended by their producers alone. */
  lemma {:induction false} FinishAll(acts: seq<Action>, stubSelf: Msg) returns (more: seq<Action>)
    ensures Producing(more)
    ensures var s, s' := After(acts, stubSelf), After(acts + more, stubSelf);
      && s'.sends == map[]
      && s'.recv == s.recv && s'.handled == s.handled && s'.called == s.called && s'.begun == s.begun
    decreases |After(acts, stubSelf).sends.Keys|
  {
    hide After, Producing;
    var sends := After(acts, stubSelf).sends;
    ProducingParts([], []);
    if sends == map[] {
      more := [];
      assert acts + [] == acts;
    } else {
      assert sends.Keys != {};
      var p :| p in sends.Keys;
      var one := FinishOne(acts, stubSelf, p);
      var s' := After(acts + one, stubSelf);
      Smaller(s'.sends.Keys, sends.Keys, p);
      var rest := FinishAll(acts + one, stubSelf);
      more := one + rest;
      ProducingParts(one, rest);
      assert acts + more == acts + one + rest;
    }
  }

  // ---------- The receiver alone ----------

  function Alone(s: Sys, steps: nat): Sys
    decreases steps
  {
    if steps == 0 then s else Alone(Next(s, Consume), steps - 1)
  }

  function ChainAfter(s: Sys, c: seq<Ptr>, steps: nat): seq<Ptr>
    decreases steps
  {
    if steps == 0 then c else ChainAfter(Next(s, Consume), NextChain(s, c, Consume), steps - 1)
  }

  lemma {:induction false} AloneAdd(s: Sys, c: seq<Ptr>, i: nat, j: nat)
    ensures Alone(s, i + j) == Alone(Alone(s, i), j)
    ensures ChainAfter(s, c, i + j) == ChainAfter(Alone(s, i), ChainAfter(s, c, i), j)
    decreases i
  {
    if i > 0 {
      AloneAdd(Next(s, Consume), NextChain(s, c, Consume), i - 1, j);
      assert i + j - 1 == (i - 1) + j;
    }
  }

  lemma AloneOne(s: Sys, c: seq<Ptr>)
    ensures Alone(s, 1) == Next(s, Consume) && ChainAfter(s, c, 1) == NextChain(s, c, Consume)
  {
    assert Alone(Next(s, Consume), 0) == Next(s, Consume);
    assert ChainAfter(Next(s, Consume), NextChain(s, c, Consume), 0) == NextChain(s, c, Consume);
  }

  lemma {:induction false} PopPhase(s: Sys, c: seq<Ptr>, steps: nat) returns (k: nat)
    requires s.recv.Popping?
    ensures Alone(s, k) == s.(q := PopAlone(s.q, steps))
    ensures ChainAfter(s, c, k) == ChainAlone(s.q, c, steps)
    decreases steps
  {
    if steps == 0 || !CanPop(s.q) {
      k := 0;
    } else {
      k := PopPhase(s.(q := PopStep(s.q)), PopChain(s.q, c), steps - 1);
      k := k + 1;
    }
  }

  lemma NobodyLinking(s: Sys, c: seq<Ptr>)
    requires QueueOk(s, c) && s.sends == map[]
    ensures !ProducerLinking(s.q.mem) && Unsignalled(s) == {}
  {
    forall t: Thread | t.Producer? ensures !Linking(s.q.mem, t) {
      assert t == Producer(t.id);
    }
  }

  /** The receiver's steps leave the history of sends alone. */
  lemma ConsumeFrame(s: Sys, c: seq<Ptr>)
    requires SysInv(s, c)
    ensures SysInv(Next(s, Consume), NextChain(s, c, Consume))
    ensures Next(s, Consume).sends == s.sends && Next(s, Consume).begun == s.begun && Next(s, Consume).sent == s.sent
  {
    hide SysInv;
    SysInvNext(s, c, Consume);
  }

  lemma {:induction false} AloneKeeps(s: Sys, c: seq<Ptr>, steps: nat)
    requires SysInv(s, c)
    ensures SysInv(Alone(s, steps), ChainAfter(s, c, steps))
    ensures Alone(s, steps).sends == s.sends && Alone(s, steps).begun == s.begun && Alone(s, steps).sent == s.sent
    decreases steps
  {
    hide SysInv, Next, NextChain;
    if steps > 0 {
      ConsumeFrame(s, c);
      AloneKeeps(Next(s, Consume), NextChain(s, c, Consume), steps - 1);
    }
  }

  /** A call of `pop` that is about to start, with no send in progress. */
  ghost predicate Poised(s: Sys, c: seq<Ptr>) {
    SysInv(s, c) && s.recv.Popping? && s.q.pop == LoadHead && s.sends == map[]
  }

  /** One iteration of the loop in `receive`: the oldest message is handled. */
  lemma TakeOne(s: Sys, c: seq<Ptr>) returns (k: nat)
    requires Poised(s, c)
    ensures Contents(s.q, c) != []
    ensures var s', c' := Alone(s, k), ChainAfter(s, c, k);
      && SysInv(s', c') && s'.sends == map[] && s'.counter == s.counter && s'.lost == s.lost
      && s'.handled == s.handled + [Contents(s.q, c)[0]] && Contents(s'.q, c') == Contents(s.q, c)[1..]
      && (s.recv.left == 1 ==> s'.recv == Outside)
      && (s.recv.left > 1 ==> s'.recv == Popping(s.recv.left - 1) && s'.q.pop == LoadHead)
  {
    hide SysInv, Contents, Next, NextChain;
    var i := PopOldest(s, c);
    var s1, c1 := Alone(s, i), ChainAfter(s, c, i);
    AloneKeeps(s, c, i);
    var j := HandlePhase(s1, c1);
    AloneAdd(s, c, i, j);
    AloneKeeps(s1, c1, j);
    k := i + j;
  }

  /** The `pop` of an iteration brings the oldest message at once. */
  lemma PopOldest(s: Sys, c: seq<Ptr>) returns (k: nat)
    requires Poised(s, c)
    ensures Contents(s.q, c) != []
    ensures var s', c' := Alone(s, k), ChainAfter(s, c, k);
      && s' == s.(q := s'.q) && s'.q.pop.Done? && s'.q.pop.result != Null
      && SelfOf(s'.q.mem.heap, s'.q.pop.result) == Contents(s.q, c)[0] && Contents(s'.q, c') == Contents(s.q, c)[1..]
  {
    QueueIsOk(s, c);
    NobodyLinking(s, c);
    assert Contents(s.q, c) != [] by { SomethingQueued(s, c); }
    hide SysInv, Contents, Next, NextChain, Linked;
    k := PopPhase(s, c, 10);
    UndisturbedPop(s.q, c);
  }

  lemma SomethingQueued(s: Sys, c: seq<Ptr>)
    requires SysInv(s, c) && s.recv.Popping? && s.q.pop == LoadHead
    ensures Contents(s.q, c) != []
  {
    hide Inv, Contents, KindOk, OrderOk;
  }

  /** From the end of a successful `pop` to the end of the iteration. */
  lemma HandlePhase(s: Sys, c: seq<Ptr>) returns (k: nat)
    requires SysInv(s, c) && s.recv.Popping? && s.q.pop.Done? && s.q.pop.result != Null
    ensures var s', c' := Alone(s, k), ChainAfter(s, c, k);
      && s'.counter == s.counter && s'.lost == s.lost
      && s'.handled == s.handled + [SelfOf(s.q.mem.heap, s.q.pop.result)] && Contents(s'.q, c') == Contents(s.q, c)
      && (s.recv.left == 1 ==> s'.recv == Outside)
      && (s.recv.left > 1 ==> s'.recv == Popping(s.recv.left - 1) && s'.q.pop == LoadHead)
  {
    hide Inv, Contents, KindOk, OrderOk, Conserved;
    Facts(s, c);
    var s1 := Next(s, Consume);
    HandleStep(s, c);
    var s2 := Next(s1, Consume);
    HandleStep(s1, c);
    var s3 := Next(s2, Consume);
    HandleStep(s2, c);
    AloneOne(s, c);
    AloneOne(s1, c);
    AloneOne(s2, c);
    AloneAdd(s, c, 1, 1);
    AloneAdd(s, c, 2, 1);
    if s2.recv.DeleteNull? {
      k := 3;
    } else {
      HandleStep(s3, c);
      AloneOne(s3, c);
      AloneAdd(s, c, 3, 1);
      k := 4;
    }
  }

  /** A step of `receive` outside `pop` leaves the queue's content alone. */
  lemma HandleStep(s: Sys, c: seq<Ptr>)
    requires SysInv(s, c) && Can(s, Consume) && (s.recv.Popping? ==> s.q.pop.Done?)
    ensures SysInv(Next(s, Consume), NextChain(s, c, Consume))
    ensures NextChain(s, c, Consume) == c && Contents(Next(s, Consume).q, c) == Contents(s.q, c)
  {
    hide Inv, Contents, KindOk, OrderOk, Conserved, DispatchOk;
    SysInvNext(s, c, Consume);
    QueueConsume(s, c);
  }

  /**
    The rest of a `receive`: as many messages as it has iterations left are handled, the
    oldest ones, in order.
   */
  lemma {:induction false} TakeAll(s: Sys, c: seq<Ptr>) returns (k: nat)
    requires Poised(s, c)
    ensures s.recv.left <= |Contents(s.q, c)|
    ensures var s', c' := Alone(s, k), ChainAfter(s, c, k);
      && SysInv(s', c') && s'.sends == map[] && s'.counter == s.counter && s'.lost == s.lost && s'.recv == Outside
      && s'.handled == s.handled + Contents(s.q, c)[..s.recv.left]
      && Contents(s'.q, c') == Contents(s.q, c)[s.recv.left..]
    decreases s.recv.left
  {
    hide SysInv, Contents, Next, NextChain;
    var i := TakeOne(s, c);
    SomeLeftNow(s, c);
    var items := Contents(s.q, c);
    if s.recv.left == 1 {
      k := i;
      assert items[..1] == [items[0]];
    } else {
      var n := s.recv.left;
      var j := TakeAll(Alone(s, i), ChainAfter(s, c, i));
      AloneAdd(s, c, i, j);
      assert items[..n] == [items[0]] + items[1..][..n - 1] && items[1..][n - 1..] == items[n..];
      k := i + j;
    }
  }

  lemma SomeLeftNow(s: Sys, c: seq<Ptr>)
    requires SysInv(s, c) && s.recv.Popping?
    ensures s.recv.left >= 1
  {
  }

  /**
    A whole `receive` that nobody disturbs reads and zeroes the counter and handles as many
    messages as it announced, if that fits an `int`: the oldest ones, in order.
   */
  lemma ReceiveAlone(s: Sys, c: seq<Ptr>) returns (k: nat)
    requires SysInv(s, c) && s.recv.Outside? && s.counter > 0 && s.sends == map[]
    ensures var s', c', n := Alone(s, k), ChainAfter(s, c, k), Rounds(s.counter);
      && SysInv(s', c') && s'.sends == map[] && s'.recv == Outside && s'.counter == 0
      && n <= |Contents(s.q, c)| && (s.counter < 2147483648 ==> n == s.counter && s'.lost == s.lost)
      && s'.handled == s.handled + Contents(s.q, c)[..n] && Contents(s'.q, c') == Contents(s.q, c)[n..]
  {
    hide Inv, Contents, PopStep, KindOk, OrderOk, Conserved, Rounds, DispatchOk;
    var s1, c1 := Next(s, Consume), NextChain(s, c, Consume);
    HandleStep(s, c);
    AloneOne(s, c);
    RoundsExact(s.counter);
    if Rounds(s.counter) == 0 {
      k := 1;
    } else {
      var j := TakeAll(s1, c1);
      AloneAdd(s, c, 1, j);
      k := 1 + j;
    }
  }

  // ---------- Coming to rest ----------

  /** `receive` is blocked only before it has read the counter, and only while that is zero. */
  lemma BlockedOnlyOnZero(acts: seq<Action>, stubSelf: Msg)
    ensures var s := After(acts, stubSelf);
      Can(s, Consume) <==> !(s.recv.Outside? && s.counter == 0)
  {
    SysInvAlways(acts, stubSelf);
    hide After, Chain, Linked;
  }

  /** Steps of `receive` until it starts on the next message or ends. */
  function Phase(s: Sys): nat {
    match s.recv
    case Outside => 0
    case Popping(_) => 5 + Rank(s.q)
    case GetCommand(_, _) => 4
    case CallCommand(_, _, _) => 3
    case DeleteCommand(_, _) => 2
    case DeleteNull(_, _) => 2
  }

  /** Outside, or about to call `pop`. */
  predicate AtStart(s: Sys) {
    s.recv.Outside? || (s.recv.Popping? && s.q.pop == LoadHead)
  }

  lemma PhaseDrops(s: Sys, c: seq<Ptr>)
    requires QueueOk(s, c) && !AtStart(s)
    ensures AtStart(Next(s, Consume)) || Phase(Next(s, Consume)) < Phase(s)
  {
    hide Linked;
    if s.recv.Popping? && CanPop(s.q) {
      RankDrops(s.q, c);
    }
  }

  lemma {:induction false} ComesToStart(s: Sys, c: seq<Ptr>) returns (k: nat)
    requires SysInv(s, c)
    ensures AtStart(Alone(s, k))
    decreases Phase(s)
  {
    hide SysInv, AtStart, Phase, Next, NextChain;
    if AtStart(s) {
      k := 0;
    } else {
      QueueIsOk(s, c);
      PhaseDrops(s, c);
      ConsumeFrame(s, c);
      AloneOne(s, c);
      if AtStart(Next(s, Consume)) {
        k := 1;
      } else {
        var j := ComesToStart(Next(s, Consume), NextChain(s, c, Consume));
        AloneAdd(s, c, 1, j);
        k := 1 + j;
      }
    }
  }

  lemma QueueIsOk(s: Sys, c: seq<Ptr>)
    requires SysInv(s, c)
    ensures QueueOk(s, c)
  {
  }

  /** From such a point the receiver alone comes to rest. */
  lemma RestsFromStart(s: Sys, c: seq<Ptr>) returns (k: nat)
    requires SysInv(s, c) && AtStart(s) && s.sends == map[]
    ensures AtRest(Alone(s, k))
  {
    hide SysInv, Contents, Next, NextChain, Rounds;
    k := 0;
    if !s.recv.Outside? {
      k := TakeAll(s, c);
    }
    var s1, c1 := Alone(s, k), ChainAfter(s, c, k);
    if s1.counter > 0 {
      var j := ReceiveAlone(s1, c1);
      AloneAdd(s, c, k, j);
      k := k + j;
    }
  }

  lemma {:induction false} AfterConsumes(acts: seq<Action>, stubSelf: Msg, k: nat)
    ensures After(acts + Repeat(Consume, k), stubSelf) == Alone(After(acts, stubSelf), k)
    decreases k
  {
    hide Next, After;
    if k == 0 {
      assert acts + Repeat(Consume, 0) == acts;
    } else {
      AfterConsumes(acts, stubSelf, k - 1);
      AfterAppend(acts + Repeat(Consume, k - 1), Consume, stubSelf);
      AloneAdd(After(acts, stubSelf), [], k - 1, 1);
      AloneOne(Alone(After(acts, stubSelf), k - 1), []);
      assert acts + Repeat(Consume, k) == acts + Repeat(Consume, k - 1) + [Consume];
    }
  }

  lemma RepeatConsume(k: nat)
    ensures forall a | a in Repeat(Consume, k) :: a == Consume
  {
  }

  /**
    From every reachable state, the sends in progress ending and `receive` being called
    while there is a signal, with no new send, everything comes to rest; what has been
    handled then is stated by `NullMessagesStayBehind`.
   */
  lemma ComesToRest(acts: seq<Action>, stubSelf: Msg) returns (more: seq<Action>)
    ensures forall a | a in more :: a.Produce? || a.Consume?
    ensures var s, s' := After(acts, stubSelf), After(acts + more, stubSelf);
      AtRest(s') && s'.begun == s.begun && forall p :: By(s'.sent, p) == By(s.begun, p)
  {
    hide SysInv, Next, NextChain, After, Chain, Alone, AtStart, By, Repeat;
    var sending := FinishAll(acts, stubSelf);
    var acts1 := acts + sending;
    var s, c := After(acts1, stubSelf), Chain(acts1, stubSelf);
    SysInvAlways(acts1, stubSelf);
    var i := ComesToStart(s, c);
    AloneKeeps(s, c, i);
    var j := RestsFromStart(Alone(s, i), ChainAfter(s, c, i));
    AloneAdd(s, c, i, j);
    AloneKeeps(s, c, i + j);
    AfterConsumes(acts1, stubSelf, i + j);
    RepeatConsume(i + j);
    more := sending + Repeat(Consume, i + j);
    assert acts + more == acts1 + Repeat(Consume, i + j);
    forall p ensures By(After(acts + more, stubSelf).sent, p) == By(After(acts, stubSelf).begun, p) {
      ProducerOrder(acts + more, stubSelf, p);
    }
  }
}
