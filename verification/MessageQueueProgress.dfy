/**
  Progress of the whole system: sends are wait-free, the running thread is blocked only in
  `sem_wait` on zero, and every reachable state can go on to handle everything sent.
 */
module MessageQueueProgress {
  import opened Eventcount
  import opened MpscMemory
  import opened Fifo
  import opened Sending
  import opened IntMpscSteps
  import opened IntMpscRuns
  import opened MessageQueueSteps
  import opened MessageQueueTheorems

  function RankOf(s: Sys, p: nat): nat {
    SendRank(s.ec, s.q.mem, p)
  }

  // ---------- Sends ----------

  lemma ProduceRank(s: Sys, c: seq<Ptr>, p: nat)
    requires QueueOk(s, c) && p in s.ec.sends
    ensures Can(s, Produce(p)) && 1 <= RankOf(s, p) <= 6
    ensures RankOf(Next(s, Produce(p)), p) < RankOf(s, p)
    ensures forall x | x != p :: RankOf(Next(s, Produce(p)), x) == RankOf(s, x)
    ensures Next(s, Produce(p)).ec.sends.Keys <= s.ec.sends.Keys
    ensures RankOf(Next(s, Produce(p)), p) == 0 <==> p !in Next(s, Produce(p)).ec.sends
  {
    hide Inv, PushStep;
    assert s.ec.sends[p].Pushing? ==> Producer(p) in s.q.mem.pushes;
    if s.ec.sends[p].Pushing? {
      PushProgress(s.q.mem, Producer(p));
      PushSelf(s.q.mem, Producer(p));
    } else {
      NotifyProgress(s.ec, s.q.mem, p);
    }
  }

  /** Any thread that is not inside `send` can begin one, at any time and with any message. */
  lemma SendBegins(acts: seq<Action>, stubSelf: Msg, p: nat, n: Ptr, msg: Msg, junk: Ptr)
    ensures var s := After(acts, stubSelf);
      var s' := Next(s, Send(p, n, msg, junk));
      if p !in s.ec.sends && n.Node? && n !in s.q.mem.heap
      then p in s'.ec.sends && RankOf(s', p) == 6 && s'.begun == s.begun + [Sent(p, msg)]
      else s' == s
  {
    SysInvAlways(acts, stubSelf);
    hide After, Inv;
    assert QueueOk(After(acts, stubSelf), Chain(acts, stubSelf));
  }

  /** No other action holds a send up or moves it. */
  lemma OtherRank(s: Sys, c: seq<Ptr>, a: Action, p: nat)
    requires QueueOk(s, c) && p in s.ec.sends && a != Produce(p)
    ensures RankOf(Next(s, a), p) == RankOf(s, p)
  {
    hide Inv, PushStep, PopStep;
    if Can(s, a) {
      match a
      case Send(_, _, _, _) =>
      case Produce(x) => ProduceRank(s, c, x);
      case Consume => ConsumeHeap(s, c);
    }
  }

  /** The steps of producer `p` among some actions. */
  function StepsOf(acts: seq<Action>, p: nat): nat {
    if acts == [] then 0
    else StepsOf(acts[..|acts| - 1], p) + if acts[|acts| - 1] == Produce(p) then 1 else 0
  }

  /**
    A send is never blocked and ends within six steps of its own, whatever the other threads
    do: while it has not ended it has made fewer than six.
   */
  lemma {:induction false} SendIsWaitFree(acts: seq<Action>, stubSelf: Msg, i: nat, p: nat)
    requires i <= |acts|
    requires forall k | i <= k <= |acts| :: p in After(acts[..k], stubSelf).ec.sends
    ensures Can(After(acts, stubSelf), Produce(p))
    ensures StepsOf(acts[i..], p) + RankOf(After(acts, stubSelf), p) <= 6 && StepsOf(acts[i..], p) < 6
  {
    hide QueueOk, DispatchOk, OrderOk, EventcountOk, Next, NextChain, Can, RankOf;
    assert acts[..|acts|] == acts;
    SysInvAlways(acts, stubSelf);
    assert p in After(acts[..|acts|], stubSelf).ec.sends;
    ProduceRank(After(acts, stubSelf), Chain(acts, stubSelf), p);
    if i < |acts| {
      var k := |acts| - 1;
      var before := acts[..k];
      forall x | i <= x <= k ensures acts[..x] == before[..x] {
      }
      SendIsWaitFree(before, stubSelf, i, p);
      SysInvAlways(before, stubSelf);
      assert p in After(acts[..k], stubSelf).ec.sends;
      var s, c := After(before, stubSelf), Chain(before, stubSelf);
      if acts[k] == Produce(p) {
        ProduceRank(s, c, p);
      } else {
        OtherRank(s, c, acts[k], p);
      }
      assert acts[i..][..|acts[i..]| - 1] == before[i..] && acts[i..][|acts[i..]| - 1] == acts[k];
    }
  }

  lemma CalmStep(s: Sys, a: Action)
    requires Calm(s.ec) && !s.run.Prepare? && !s.run.Commit? && !s.run.Cancel?
    ensures Calm(Next(s, a).ec)
  {
    hide PopStep, PushStep;
    if a.Produce? && Can(s, a) && !s.ec.sends[a.p].Pushing? {
      NotifyCalm(s.ec, a.p);
    }
  }

  /** As long as `run` has never found the queue empty, no producer touches the semaphore. */
  lemma {:induction false} NobodyWaitsNobodyPosts(acts: seq<Action>, stubSelf: Msg)
    requires forall k | 0 <= k <= |acts| :: !After(acts[..k], stubSelf).run.Prepare?
    ensures Calm(After(acts, stubSelf).ec) && After(acts, stubSelf).waits == 0
    ensures var s := After(acts, stubSelf); !s.run.Commit? && !s.run.Cancel? && s.run != InPop(Recheck)
  {
    hide Calm;
    if acts == [] {
      StartsCalm(stubSelf);
    } else {
      var n := |acts| - 1;
      forall k | 0 <= k <= n ensures acts[..n][..k] == acts[..k] {
      }
      assert !After(acts[..n], stubSelf).run.Prepare?;
      NobodyWaitsNobodyPosts(acts[..n], stubSelf);
      CalmStep(After(acts[..n], stubSelf), acts[n]);
      assert acts[..|acts|] == acts;
      RoundsBeginWithPrepare(After(acts[..n], stubSelf), acts[n]);
    }
  }

  lemma StartsCalm(stubSelf: Msg)
    ensures Calm(Start(stubSelf).ec)
  {
  }

  lemma RoundsBeginWithPrepare(s: Sys, a: Action)
    requires !s.run.Prepare? && !s.run.Commit? && !s.run.Cancel? && s.run != InPop(Recheck)
    ensures var s' := Next(s, a);
      s'.waits == s.waits && !s'.run.Commit? && !s'.run.Cancel? && s'.run != InPop(Recheck)
  {
    hide PopStep, PushStep;
  }

  /** Steps of producers only. */
  ghost predicate Producing(more: seq<Action>) {
    forall a | a in more :: a.Produce?
  }

  lemma AfterAppend(acts: seq<Action>, a: Action, stubSelf: Msg)
    ensures After(acts + [a], stubSelf) == Next(After(acts, stubSelf), a)
    ensures Chain(acts + [a], stubSelf) == NextChain(After(acts, stubSelf), Chain(acts, stubSelf), a)
  {
    assert (acts + [a])[..|acts|] == acts;
  }

  /** What a producer's step leaves alone. */
  lemma ProduceFrame(s: Sys, p: nat)
    ensures var s' := Next(s, Produce(p));
      s'.run == s.run && s'.called == s.called && s'.waits == s.waits && s'.begun == s.begun && s'.q.pop == s.q.pop
  {
  }

  /** A producer that goes on ends its send. */
  lemma {:induction false} FinishOne(acts: seq<Action>, stubSelf: Msg, p: nat) returns (more: seq<Action>)
    requires p in After(acts, stubSelf).ec.sends
    ensures Producing(more)
    ensures var s, s' := After(acts, stubSelf), After(acts + more, stubSelf);
      && p !in s'.ec.sends && s'.ec.sends.Keys <= s.ec.sends.Keys
      && s'.run == s.run && s'.called == s.called && s'.waits == s.waits && s'.begun == s.begun
    decreases RankOf(After(acts, stubSelf), p)
  {
    hide QueueOk, Next, Can, RankOf;
    var s, c, a := After(acts, stubSelf), Chain(acts, stubSelf), Produce(p);
    SysInvAlways(acts, stubSelf);
    ProduceRank(s, c, p);
    ProduceFrame(s, p);
    AfterAppend(acts, a, stubSelf);
    if p in Next(s, a).ec.sends {
      var rest := FinishOne(acts + [a], stubSelf, p);
      more := [a] + rest;
      assert acts + more == acts + [a] + rest;
    } else {
      more := [a];
    }
  }

  /** The sends in progress can all be ended by their producers alone. */
  lemma {:induction false} FinishAll(acts: seq<Action>, stubSelf: Msg) returns (more: seq<Action>)
    ensures Producing(more)
    ensures var s, s' := After(acts, stubSelf), After(acts + more, stubSelf);
      && s'.ec.sends == map[]
      && s'.run == s.run && s'.called == s.called && s'.waits == s.waits && s'.begun == s.begun
    decreases |After(acts, stubSelf).ec.sends.Keys|
  {
    hide After, Producing;
    var sends := After(acts, stubSelf).ec.sends;
    ProducingParts([], []);
    if sends == map[] {
      more := [];
      assert acts + [] == acts;
    } else {
      assert sends.Keys != {};
      var p :| p in sends.Keys;
      var one := FinishOne(acts, stubSelf, p);
      var s' := After(acts + one, stubSelf);
      Smaller(s'.ec.sends.Keys, sends.Keys, p);
      var rest := FinishAll(acts + one, stubSelf);
      more := one + rest;
      ProducingParts(one, rest);
      assert acts + more == acts + one + rest;
    }
  }

  lemma ProducingParts(a: seq<Action>, b: seq<Action>)
    ensures Producing([])
    ensures Producing(a) && Producing(b) ==> Producing(a + b)
  {
  }

  /**
    Whenever all producers have ended their sends, a running thread that is blocked on zero
    has called everything that was sent; and the producers can always get there.
   */
  lemma BlockedIsDone(acts: seq<Action>, stubSelf: Msg) returns (more: seq<Action>)
    ensures Producing(more) && After(acts + more, stubSelf).ec.sends == map[]
    ensures var s, c := After(acts + more, stubSelf), Chain(acts + more, stubSelf);
      s.run.Commit? && s.ec.sem == 0 ==> Contents(s.q, c) == [] && Messages(s.sent) == Commands(s.called)
  {
    more := FinishAll(acts, stubSelf);
    var s, c := After(acts + more, stubSelf), Chain(acts + more, stubSelf);
    SysInvAlways(acts + more, stubSelf);
    hide After, Chain, Contents, Inv;
    NobodyLinking(s, c);
    if s.run.Commit? && s.ec.sem == 0 {
      NoLostWakeup(acts + more, stubSelf);
    }
  }

  // ---------- The running thread ----------

  /** The running thread is blocked only in `sem_wait` on zero, or has returned from `run`. */
  lemma BlockedOnlyInWait(acts: seq<Action>, stubSelf: Msg)
    ensures var s := After(acts, stubSelf);
      Can(s, Consume) <==> !s.run.Stopped? && !(s.run.Commit? && s.ec.sem == 0)
  {
    SysInvAlways(acts, stubSelf);
    ConsumeEnabled(After(acts, stubSelf), Chain(acts, stubSelf));
  }

  lemma ConsumeEnabled(s: Sys, c: seq<Ptr>)
    requires QueueOk(s, c)
    ensures Can(s, Consume) <==> !s.run.Stopped? && !(s.run.Commit? && s.ec.sem == 0)
  {
  }

  /** Steps of the running thread until it starts on the next message, waits, or stops. */
  function Phase(s: Sys): nat {
    match s.run
    case InPop(Outer) => 18 + Rank(s.q)
    case Prepare => 17
    case InPop(Recheck) => 5 + Rank(s.q)
    case Cancel(_) => 4
    case GetCommand(_) => 3
    case CallCommand(_, _) => 2
    case DeleteCommand(_) => 1
    case DeleteNull(_) => 1
    case _ => 0
  }

  /** At a point where `receive` begins, waits or has returned for good. */
  predicate AtRest(s: Sys) {
    s.run.Stopped? || s.run.Commit? || (s.run == InPop(Outer) && s.q.pop == LoadHead)
  }

  lemma PhaseDrops(s: Sys, c: seq<Ptr>)
    requires QueueOk(s, c) && !AtRest(s)
    ensures Can(s, Consume)
    ensures AtRest(Next(s, Consume)) || Phase(Next(s, Consume)) < Phase(s)
  {
    hide Linked;
    if s.run.InPop? && CanPop(s.q) {
      RankDrops(s.q, c);
    }
  }

  /** With all sends ended, the running thread alone comes to such a point. */
  lemma {:induction false} ComesToRest(s: Sys, c: seq<Ptr>) returns (k: nat)
    requires QueueOk(s, c) && s.ec.sends == map[]
    ensures var s', c' := Alone(s, k), ChainAfter(s, c, k);
      QueueOk(s', c') && AtRest(s') && s'.ec.sends == map[] && s'.begun == s.begun
    decreases Phase(s)
  {
    hide QueueOk, AtRest, Phase, Next, NextChain;
    if AtRest(s) {
      k := 0;
    } else {
      PhaseDrops(s, c);
      QueueOkNext(s, c, Consume);
      ConsumeFrame(s);
      var s1, c1 := Next(s, Consume), NextChain(s, c, Consume);
      AloneOne(s, c);
      if AtRest(s1) {
        k := 1;
      } else {
        var j := ComesToRest(s1, c1);
        AloneAdd(s, c, 1, j);
        k := 1 + j;
      }
    }
  }

  lemma ConsumeFrame(s: Sys)
    ensures Next(s, Consume).ec.sends == s.ec.sends && Next(s, Consume).begun == s.begun
  {
  }

  lemma NobodyLinking(s: Sys, c: seq<Ptr>)
    requires QueueOk(s, c) && s.ec.sends == map[]
    ensures !ProducerLinking(s.q.mem) && forall p :: !Poster(s.ec, s.q.mem, p)
  {
    forall t: Thread | t.Producer? ensures !Linking(s.q.mem, t) {
      assert t == Producer(t.id);
    }
  }

  function Consumes(k: nat): seq<Action> {
    seq(k, _ => Consume)
  }

  lemma {:induction false} AfterConsumes(acts: seq<Action>, stubSelf: Msg, k: nat)
    ensures After(acts + Consumes(k), stubSelf) == Alone(After(acts, stubSelf), k)
    ensures Chain(acts + Consumes(k), stubSelf) == ChainAfter(After(acts, stubSelf), Chain(acts, stubSelf), k)
    decreases k
  {
    if k == 0 {
      assert acts + Consumes(0) == acts;
    } else {
      AfterAppend(acts, Consume, stubSelf);
      AfterConsumes(acts + [Consume], stubSelf, k - 1);
      assert acts + Consumes(k) == acts + [Consume] + Consumes(k - 1);
    }
  }

  /** Everything sent has been called; nothing is queued or in hand. */
  ghost predicate AllHandled(s: Sys, c: seq<Ptr>) {
    Contents(s.q, c) == [] && Messages(s.sent) == Commands(s.called) && s.ec.sends == map[]
  }

  /** From a point of rest: a blocked thread has nothing left to do, and any other drains the queue. */
  lemma RestHandles(acts: seq<Action>, stubSelf: Msg) returns (k: nat)
    requires After(acts, stubSelf).ec.sends == map[] && AtRest(After(acts, stubSelf))
    ensures var s', c' := After(acts + Consumes(k), stubSelf), Chain(acts + Consumes(k), stubSelf);
      s'.run.Stopped? || AllHandled(s', c')
  {
    var s, c := After(acts, stubSelf), Chain(acts, stubSelf);
    SysInvAlways(acts, stubSelf);
    hide Inv, Contents, Next, NextChain, After, Chain;
    NobodyLinking(s, c);
    if s.run.Stopped? {
      k := 0;
    } else if s.run.Commit? && s.ec.sem == 0 {
      NoLostWakeup(acts, stubSelf);
      k := 0;
    } else if s.run.Commit? {
      WakesUp(s, c);
      AloneOne(s, c);
      var j := Drain(Next(s, Consume), NextChain(s, c, Consume));
      AloneAdd(s, c, 1, j);
      k := 1 + j;
    } else {
      k := Drain(s, c);
    }
    AfterConsumes(acts, stubSelf, k);
    SysInvAlways(acts + Consumes(k), stubSelf);
    AloneSends(s, k);
  }

  lemma WakesUp(s: Sys, c: seq<Ptr>)
    requires QueueOk(s, c) && s.run.Commit? && s.ec.sem > 0 && !ProducerLinking(s.q.mem)
    ensures Settled(Next(s, Consume), NextChain(s, c, Consume))
  {
    AloneStep(s, c);
  }

  lemma {:induction false} AloneSends(s: Sys, k: nat)
    ensures Alone(s, k).ec.sends == s.ec.sends && Alone(s, k).begun == s.begun
    decreases k
  {
    if k > 0 {
      hide Next;
      ConsumeFrame(s);
      AloneSends(Next(s, Consume), k - 1);
    }
  }

  /** With no new send, the sends in progress end and the thread that takes comes to rest. */
  lemma ReachesRest(acts: seq<Action>, stubSelf: Msg) returns (more: seq<Action>)
    ensures forall a | a in more :: !a.Send?
    ensures var s, s' := After(acts, stubSelf), After(acts + more, stubSelf);
      s'.begun == s.begun && s'.ec.sends == map[] && AtRest(s')
  {
    hide QueueOk, DispatchOk, OrderOk, EventcountOk, Next, NextChain, Can, AtRest;
    var sending := FinishAll(acts, stubSelf);
    var acts1 := acts + sending;
    SysInvAlways(acts1, stubSelf);
    var i := ComesToRest(After(acts1, stubSelf), Chain(acts1, stubSelf));
    AfterConsumes(acts1, stubSelf, i);
    AloneSends(After(acts1, stubSelf), i);
    more := sending + Consumes(i);
    assert acts + more == acts1 + Consumes(i);
  }

  /**
    From every reachable state, the producers ending the sends they have begun and the
    running thread going on, with no new send, all messages begun are sent, everything
    sent comes to be called and the queue empty, unless a null message ends `run` before.
   */
  lemma EverythingHandled(acts: seq<Action>, stubSelf: Msg) returns (more: seq<Action>)
    ensures forall a | a in more :: !a.Send?
    ensures var s, s', c' := After(acts, stubSelf), After(acts + more, stubSelf), Chain(acts + more, stubSelf);
      && s'.begun == s.begun && s'.ec.sends == map[] && (forall p :: By(s'.sent, p) == By(s.begun, p))
      && (s'.run.Stopped? || AllHandled(s', c'))
  {
    hide Next, NextChain, Can, By;
    var resting := ReachesRest(acts, stubSelf);
    var acts1 := acts + resting;
    var k := RestHandles(acts1, stubSelf);
    AfterConsumes(acts1, stubSelf, k);
    AloneSends(After(acts1, stubSelf), k);
    more := resting + Consumes(k);
    assert acts + more == acts1 + Consumes(k);
    forall p ensures By(After(acts + more, stubSelf).sent, p) == By(After(acts, stubSelf).begun, p) {
      ProducerOrder(acts + more, stubSelf, p);
    }
  }
}
