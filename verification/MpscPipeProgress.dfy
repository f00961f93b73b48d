/**
  Progress of the whole pipe: sends are wait-free, the receiver is blocked only in
  `sem_wait` on zero, and every reachable state can go on until everything sent is received.
 */
module MpscPipeProgress {
  import opened MpscMemory
  import opened Eventcount
  import opened Fifo
  import opened Sending
  import opened MpscSteps
  import opened MpscPops
  import opened MpscPipeSteps
  import opened MpscPipeRecv

  function RankOf(s: Sys, p: nat): nat {
    SendRank(s.ec, s.q.mem, p)
  }

  // ---------- Sends ----------

  lemma ProduceRank(s: Sys, c: seq<Ptr>, p: nat)
    requires QueueOk(s, c) && p in s.ec.sends
    ensures Can(s, Produce(p)) && 1 <= RankOf(s, p) <= 6
    ensures RankOf(Next(s, Produce(p)), p) < RankOf(s, p)
    ensures forall x | x != p :: RankOf(Next(s, Produce(p)), x) == RankOf(s, x)
    ensures Next(s, Produce(p)).ec.sends.Keys <= s.ec.sends.Keys
    ensures RankOf(Next(s, Produce(p)), p) == 0 <==> p !in Next(s, Produce(p)).ec.sends
  {
    hide Inv, PushStep, PopStep;
    assert s.ec.sends[p].Pushing? ==> Producer(p) in s.q.mem.pushes;
    if s.ec.sends[p].Pushing? {
      PushProgress(s.q.mem, Producer(p));
      PushSelf(s.q.mem, Producer(p));
    } else {
      NotifyProgress(s.ec, s.q.mem, p);
    }
  }

  /** Any thread that is not inside `send` can begin one, at any time and with any data. */
  lemma SendBegins(acts: seq<Action>, dummy: nat, junk: Msg, p: nat, n: Ptr, data: Msg, x: Ptr)
    ensures var s := After(acts, dummy, junk);
      var s' := Next(s, Send(p, n, data, x));
      if p !in s.ec.sends && n.Node? && n !in s.q.mem.heap
      then p in s'.ec.sends && RankOf(s', p) == 6 && s'.begun == s.begun + [Sent(p, data)]
      else s' == s
  {
    SysInvAlways(acts, dummy, junk);
    hide After, Inv;
    assert QueueOk(After(acts, dummy, junk), Chain(acts, dummy, junk));
  }

  /** No other action holds a send up or moves it. */
  lemma OtherRank(s: Sys, c: seq<Ptr>, a: Action, p: nat)
    requires QueueOk(s, c) && p in s.ec.sends && a != Produce(p)
    ensures RankOf(Next(s, a), p) == RankOf(s, p)
  {
    hide Inv, PushStep, PopStep;
    if Can(s, a) {
      match a
      case Send(_, _, _, _) =>
      case Produce(x) => ProduceRank(s, c, x);
      case Consume => AloneStep(s, c);
    }
  }

  /** The steps of producer `p` among some actions. */
  function StepsOf(acts: seq<Action>, p: nat): nat {
    if acts == [] then 0
    else StepsOf(acts[..|acts| - 1], p) + if acts[|acts| - 1] == Produce(p) then 1 else 0
  }

  /**
    A send is never blocked and ends within six steps of its own, whatever the other threads
    do: while it has not ended it has made fewer than six.
   */
  lemma {:induction false} SendIsWaitFree(acts: seq<Action>, dummy: nat, junk: Msg, i: nat, p: nat)
    requires i <= |acts|
    requires forall k | i <= k <= |acts| :: p in After(acts[..k], dummy, junk).ec.sends
    ensures Can(After(acts, dummy, junk), Produce(p))
    ensures StepsOf(acts[i..], p) + RankOf(After(acts, dummy, junk), p) <= 6 && StepsOf(acts[i..], p) < 6
  {
    hide QueueOk, Next, Can, RankOf;
    assert acts[..|acts|] == acts;
    SysInvAlways(acts, dummy, junk);
    assert p in After(acts[..|acts|], dummy, junk).ec.sends;
    ProduceRank(After(acts, dummy, junk), Chain(acts, dummy, junk), p);
    if i < |acts| {
      var k := |acts| - 1;
      var before := acts[..k];
      forall x | i <= x <= k ensures acts[..x] == before[..x] {
      }
      SendIsWaitFree(before, dummy, junk, i, p);
      SysInvAlways(before, dummy, junk);
      assert p in After(acts[..k], dummy, junk).ec.sends;
      var s, c := After(before, dummy, junk), Chain(before, dummy, junk);
      if acts[k] == Produce(p) {
        ProduceRank(s, c, p);
      } else {
        OtherRank(s, c, acts[k], p);
      }
      assert acts[i..][..|acts[i..]| - 1] == before[i..] && acts[i..][|acts[i..]| - 1] == acts[k];
    }
  }

  lemma CalmStep(s: Sys, a: Action)
    requires Calm(s.ec) && !s.recv.Prepare? && !s.recv.Commit? && !s.recv.Cancel? && s.recv != InPop(Recheck)
    ensures Calm(Next(s, a).ec)
    ensures var s' := Next(s, a);
      s'.waits == s.waits && !s'.recv.Commit? && !s'.recv.Cancel? && s'.recv != InPop(Recheck)
  {
    hide PopStep, PushStep;
    if a.Produce? && Can(s, a) && !s.ec.sends[a.p].Pushing? {
      NotifyCalm(s.ec, a.p);
    }
  }

  lemma StartsCalm(dummy: nat, junk: Msg)
    ensures Calm(Start(dummy, junk).ec)
  {
  }

  /** As long as no `recv` has found the queue empty, no producer touches the semaphore. */
  lemma {:induction false} NobodyWaitsNobodyPosts(acts: seq<Action>, dummy: nat, junk: Msg)
    requires forall k | 0 <= k <= |acts| :: !After(acts[..k], dummy, junk).recv.Prepare?
    ensures var s := After(acts, dummy, junk);
      Calm(s.ec) && s.waits == 0 && !s.recv.Commit? && !s.recv.Cancel? && s.recv != InPop(Recheck)
  {
    hide Calm, Next;
    if acts == [] {
      StartsCalm(dummy, junk);
    } else {
      var n := |acts| - 1;
      forall k | 0 <= k <= n ensures acts[..n][..k] == acts[..k] {
      }
      assert !After(acts[..n], dummy, junk).recv.Prepare?;
      NobodyWaitsNobodyPosts(acts[..n], dummy, junk);
      CalmStep(After(acts[..n], dummy, junk), acts[n]);
    }
  }

  /** Steps of producers only. */
  ghost predicate Producing(more: seq<Action>) {
    forall a | a in more :: a.Produce?
  }

  lemma ProducingParts(a: seq<Action>, b: seq<Action>)
    ensures Producing([])
    ensures Producing(a) && Producing(b) ==> Producing(a + b)
  {
  }

  lemma AfterAppend(acts: seq<Action>, a: Action, dummy: nat, junk: Msg)
    ensures After(acts + [a], dummy, junk) == Next(After(acts, dummy, junk), a)
    ensures Chain(acts + [a], dummy, junk) == NextChain(After(acts, dummy, junk), Chain(acts, dummy, junk), a)
  {
    assert (acts + [a])[..|acts|] == acts;
  }

  /** What a producer's step leaves alone. */
  lemma ProduceFrame(s: Sys, p: nat)
    ensures var s' := Next(s, Produce(p));
      s'.recv == s.recv && s'.received == s.received && s'.waits == s.waits && s'.begun == s.begun
  {
  }

  /** A producer that goes on ends its send. */
  lemma {:induction false} FinishOne(acts: seq<Action>, dummy: nat, junk: Msg, p: nat) returns (more: seq<Action>)
    requires p in After(acts, dummy, junk).ec.sends
    ensures Producing(more)
    ensures var s, s' := After(acts, dummy, junk), After(acts + more, dummy, junk);
      && p !in s'.ec.sends && s'.ec.sends.Keys <= s.ec.sends.Keys
      && s'.recv == s.recv && s'.received == s.received && s'.waits == s.waits && s'.begun == s.begun
    decreases RankOf(After(acts, dummy, junk), p)
  {
    hide QueueOk, Next, Can, RankOf;
    var s, c, a := After(acts, dummy, junk), Chain(acts, dummy, junk), Produce(p);
    SysInvAlways(acts, dummy, junk);
    ProduceRank(s, c, p);
    ProduceFrame(s, p);
    AfterAppend(acts, a, dummy, junk);
    if p in Next(s, a).ec.sends {
      var rest := FinishOne(acts + [a], dummy, junk, p);
      more := [a] + rest;
      assert acts + more == acts + [a] + rest;
    } else {
      more := [a];
    }
  }

  /** The sends in progress can all be ended by their producers alone. */
  lemma {:induction false} FinishAll(acts: seq<Action>, dummy: nat, junk: Msg) returns (more: seq<Action>)
    ensures Producing(more)
    ensures var s, s' := After(acts, dummy, junk), After(acts + more, dummy, junk);
      && s'.ec.sends == map[]
      && s'.recv == s.recv && s'.received == s.received && s'.waits == s.waits && s'.begun == s.begun
    decreases |After(acts, dummy, junk).ec.sends.Keys|
  {
    hide After, Producing;
    var sends := After(acts, dummy, junk).ec.sends;
    ProducingParts([], []);
    if sends == map[] {
      more := [];
      assert acts + [] == acts;
    } else {
      assert sends.Keys != {};
      var p :| p in sends.Keys;
      var one := FinishOne(acts, dummy, junk, p);
      var s' := After(acts + one, dummy, junk);
      Smaller(s'.ec.sends.Keys, sends.Keys, p);
      var rest := FinishAll(acts + one, dummy, junk);
      more := one + rest;
      ProducingParts(one, rest);
      assert acts + more == acts + one + rest;
    }
  }

  lemma NobodyLinking(s: Sys, c: seq<Ptr>)
    requires QueueOk(s, c) && s.ec.sends == map[]
    ensures !ProducerLinking(s.q.mem) && forall p :: !Poster(s.ec, s.q.mem, p)
  {
    forall t: Thread | t.Producer? ensures !Linking(s.q.mem, t) {
      assert t == Producer(t.id);
    }
  }

  lemma Blocked(acts: seq<Action>, dummy: nat, junk: Msg)
    requires var s := After(acts, dummy, junk); s.ec.sends == map[] && s.recv.Commit? && s.ec.sem == 0
    ensures Contents(After(acts, dummy, junk).q, Chain(acts, dummy, junk)) == []
    ensures After(acts, dummy, junk).received == Messages(After(acts, dummy, junk).sent)
  {
    hide After, Chain, Contents, Inv;
    SysInvAlways(acts, dummy, junk);
    NobodyLinking(After(acts, dummy, junk), Chain(acts, dummy, junk));
    NoLostWakeup(acts, dummy, junk);
  }

  /**
    Whenever all producers have ended their sends, a receiver that is blocked on zero has
    received everything that was sent; and the producers can always get there.
   */
  lemma BlockedIsDone(acts: seq<Action>, dummy: nat, junk: Msg) returns (more: seq<Action>)
    ensures Producing(more) && After(acts + more, dummy, junk).ec.sends == map[]
    ensures var s, c := After(acts + more, dummy, junk), Chain(acts + more, dummy, junk);
      s.recv.Commit? && s.ec.sem == 0 ==> Contents(s.q, c) == [] && s.received == Messages(s.sent)
  {
    more := FinishAll(acts, dummy, junk);
    var s := After(acts + more, dummy, junk);
    hide After, Chain, Contents;
    if s.recv.Commit? && s.ec.sem == 0 {
      Blocked(acts + more, dummy, junk);
    }
  }

  // ---------- The receiver ----------

  /** The receiver is blocked only in `sem_wait` on zero. */
  lemma BlockedOnlyInWait(acts: seq<Action>, dummy: nat, junk: Msg)
    ensures var s := After(acts, dummy, junk);
      Can(s, Consume) <==> !(s.recv.Commit? && s.ec.sem == 0)
  {
    SysInvAlways(acts, dummy, junk);
    hide After, Chain, Inv;
  }

  /** Steps of the receiver until its call returns or it waits. */
  function Phase(s: Sys): nat {
    match s.recv
    case InPop(Outer) => 10 + Rank(s.q.pop)
    case Prepare => 9
    case InPop(Recheck) => 2 + Rank(s.q.pop)
    case Cancel(_) => 1
    case _ => 0
  }

  /** At a point where `recv` has returned or waits. */
  predicate AtRest(s: Sys) {
    s.recv.Outside? || s.recv.Commit?
  }

  lemma PhaseDrops(s: Sys, c: seq<Ptr>)
    requires QueueOk(s, c) && !AtRest(s)
    ensures Can(s, Consume)
    ensures AtRest(Next(s, Consume)) || Phase(Next(s, Consume)) < Phase(s)
  {
    hide Inv;
  }

  /** With all sends ended, the receiver alone comes to such a point. */
  lemma {:induction false} ComesToRest(s: Sys, c: seq<Ptr>) returns (k: nat)
    requires QueueOk(s, c) && s.ec.sends == map[]
    ensures var s', c' := Alone(s, k), ChainAfter(s, c, k);
      QueueOk(s', c') && AtRest(s')
    decreases Phase(s)
  {
    hide QueueOk, AtRest, Phase, Next, NextChain;
    if AtRest(s) {
      k := 0;
    } else {
      PhaseDrops(s, c);
      QueueOkNext(s, c, Consume);
      ConsumeFrame(s);
      var s1, c1 := Next(s, Consume), NextChain(s, c, Consume);
      AloneOne(s, c);
      if AtRest(s1) {
        k := 1;
      } else {
        var j := ComesToRest(s1, c1);
        AloneAdd(s, c, 1, j);
        k := 1 + j;
      }
    }
  }

  lemma ConsumeFrame(s: Sys)
    ensures Next(s, Consume).ec.sends == s.ec.sends && Next(s, Consume).begun == s.begun
    ensures Next(s, Consume).sent == s.sent
  {
  }

  function Consumes(k: nat): seq<Action> {
    seq(k, _ => Consume)
  }

  lemma {:induction false} AfterConsumes(acts: seq<Action>, dummy: nat, junk: Msg, k: nat)
    ensures After(acts + Consumes(k), dummy, junk) == Alone(After(acts, dummy, junk), k)
    ensures Chain(acts + Consumes(k), dummy, junk) == ChainAfter(After(acts, dummy, junk), Chain(acts, dummy, junk), k)
    decreases k
  {
    if k == 0 {
      assert acts + Consumes(0) == acts;
    } else {
      AfterAppend(acts, Consume, dummy, junk);
      AfterConsumes(acts + [Consume], dummy, junk, k - 1);
      assert acts + Consumes(k) == acts + [Consume] + Consumes(k - 1);
    }
  }

  lemma {:induction false} AloneSends(s: Sys, k: nat)
    ensures Alone(s, k).ec.sends == s.ec.sends && Alone(s, k).begun == s.begun && Alone(s, k).sent == s.sent
    decreases k
  {
    if k > 0 {
      hide Next;
      ConsumeFrame(s);
      AloneSends(Next(s, Consume), k - 1);
    }
  }

  /** From a point of rest: a blocked receiver has everything, and any other comes to block. */
  lemma RestReceives(acts: seq<Action>, dummy: nat, junk: Msg) returns (k: nat)
    requires After(acts, dummy, junk).ec.sends == map[] && AtRest(After(acts, dummy, junk))
    ensures var s' := After(acts + Consumes(k), dummy, junk);
      s'.recv.Commit? && s'.ec.sem == 0
  {
    var s, c := After(acts, dummy, junk), Chain(acts, dummy, junk);
    SysInvAlways(acts, dummy, junk);
    hide Inv, Contents, Next, NextChain, After, Chain;
    NobodyLinking(s, c);
    if s.recv.Outside? {
      k := DrainAndBlock(s, c);
    } else if s.ec.sem == 0 {
      k := 0;
    } else {
      k := WakeAndBlock(s, c);
    }
    AfterConsumes(acts, dummy, junk, k);
  }

  lemma WakeAndBlock(s: Sys, c: seq<Ptr>) returns (k: nat)
    requires QueueOk(s, c) && s.recv.Commit? && s.ec.sem > 0 && !ProducerLinking(s.q.mem)
    ensures Alone(s, k).recv.Commit? && Alone(s, k).ec.sem == 0
  {
    hide Inv, Contents;
    var s1, c1 := Next(s, Consume), NextChain(s, c, Consume);
    AloneStep(s, c);
    AloneOne(s, c);
    var j: nat;
    if Contents(s.q, c) == [] {
      j := SpinDown(s1, c1);
    } else {
      var i := RecvOne(s1, c1);
      var r := DrainAndBlock(Alone(s1, i), ChainAfter(s1, c1, i));
      AloneAdd(s1, c1, i, r);
      j := i + r;
    }
    AloneAdd(s, c, 1, j);
    k := 1 + j;
  }

  /** With no new send, the sends in progress end and the thread that takes comes to rest. */
  lemma ReachesRest(acts: seq<Action>, dummy: nat, junk: Msg) returns (more: seq<Action>)
    ensures forall a | a in more :: !a.Send?
    ensures var s, s' := After(acts, dummy, junk), After(acts + more, dummy, junk);
      s'.begun == s.begun && s'.ec.sends == map[] && AtRest(s')
  {
    hide Next, NextChain, Can, AtRest;
    var sending := FinishAll(acts, dummy, junk);
    var acts1 := acts + sending;
    SysInvAlways(acts1, dummy, junk);
    var i := ComesToRest(After(acts1, dummy, junk), Chain(acts1, dummy, junk));
    AfterConsumes(acts1, dummy, junk, i);
    AloneSends(After(acts1, dummy, junk), i);
    more := sending + Consumes(i);
    assert acts + more == acts1 + Consumes(i);
  }

  /**
    From every reachable state, the producers ending the sends they have begun and the
    receiver going on to call `recv`, with no new send, all data begun are sent and
    received, and the receiver blocks on an empty queue.
   */
  lemma EverythingReceived(acts: seq<Action>, dummy: nat, junk: Msg) returns (more: seq<Action>)
    ensures forall a | a in more :: !a.Send?
    ensures var s, s' := After(acts, dummy, junk), After(acts + more, dummy, junk);
      && s'.begun == s.begun && s'.ec.sends == map[] && (forall p :: By(s'.sent, p) == By(s.begun, p))
      && s'.recv.Commit? && s'.ec.sem == 0 && s'.received == Messages(s'.sent)
      && Contents(s'.q, Chain(acts + more, dummy, junk)) == []
  {
    hide Next, NextChain, Can, By, Contents, AtRest;
    var resting := ReachesRest(acts, dummy, junk);
    var acts1 := acts + resting;
    var k := RestReceives(acts1, dummy, junk);
    AfterConsumes(acts1, dummy, junk, k);
    AloneSends(After(acts1, dummy, junk), k);
    more := resting + Consumes(k);
    assert acts + more == acts1 + Consumes(k);
    Blocked(acts + more, dummy, junk);
    forall p ensures By(After(acts + more, dummy, junk).sent, p) == By(After(acts, dummy, junk).begun, p) {
      ProducerOrder(acts + more, dummy, junk, p);
    }
  }
}
