/**
  What `MessageQueue` promises over every run: dispatch in order up to the first
  null message, no lost wake-up, a bound on idle rounds, and progress.
 */
module MessageQueueTheorems {
  import opened MpscMemory
  import opened Eventcount
  import opened Fifo
  import opened Sending
  import opened IntMpscSteps
  import opened IntMpscRuns
  import opened MessageQueueSteps

  // ---------- Dispatch ----------

  /**
    `run` executes exactly the commands exchanged before the first null message, each
    once and in exchange order; when it has returned, every later message is still queued.
   */
  lemma RunDispatches(acts: seq<Action>, stubSelf: Msg)
    ensures var s, c := After(acts, stubSelf), Chain(acts, stubSelf);
      && !s.q.mem.fault
      && |s.called| <= |s.sent|
      && (forall i | 0 <= i < |s.called| :: s.sent[i].msg == Command(s.called[i]))
      && (s.run.Stopped? ==>
            && |s.called| < |s.sent|
            && s.sent[|s.called|].msg == NullMsg
            && Contents(s.q, c) == Messages(s.sent)[|s.called| + 1..]
            && s.q.out == {})
  {
    var s, c := After(acts, stubSelf), Chain(acts, stubSelf);
    SysInvAlways(acts, stubSelf);
    hide Inv, QueueOk, OrderOk, EventcountOk, Contents;
    var all := Commands(s.called) + InProgress(s) + Contents(s.q, c);
    assert |all| == |s.sent|;
    forall i | 0 <= i < |s.called| ensures s.sent[i].msg == Command(s.called[i]) {
      assert Messages(s.sent)[i] == all[i];
    }
    if s.run.Stopped? {
      assert Messages(s.sent)[|s.called|] == all[|s.called|];
      assert all[|s.called| + 1..] == Contents(s.q, c);
      assert s.q.out == {} && !s.q.mem.fault by { Facts(s, c); StoppedHasNothing(s, c); }
    } else {
      Facts(s, c);
    }
  }

  lemma StoppedHasNothing(s: Sys, c: seq<Ptr>)
    requires QueueOk(s, c) && s.run.Stopped?
    ensures s.q.out == {}
  {
  }

  /**
    What has been called of one producer's messages is a prefix of what it began to send, in
    its order, and nothing it has sent is missing once its sends have ended.
   */
  lemma ProducerOrder(acts: seq<Action>, stubSelf: Msg, p: nat)
    ensures var s := After(acts, stubSelf);
      && |s.called| <= |s.sent|
      && By(s.sent[..|s.called|], p) <= By(s.sent, p) <= By(s.begun, p)
      && |By(s.begun, p)| <= |By(s.sent, p)| + 1
      && (p !in s.ec.sends ==> By(s.sent, p) == By(s.begun, p))
  {
    var s, c := After(acts, stubSelf), Chain(acts, stubSelf);
    SysInvAlways(acts, stubSelf);
    hide Inv, InOrder, EventcountOk, Contents;
    assert |Messages(s.sent)| == |Commands(s.called) + InProgress(s) + Contents(s.q, c)|;
    SentInOrder(s.begun, s.sent, s.q.mem, |s.called|, p);
  }

  /** The command being called, which its node holds. */
  ghost predicate CallOk(s: Sys) {
    s.run.CallCommand? ==> SelfOf(s.q.mem.heap, s.run.r) == Command(s.run.id)
  }

  lemma CallOkNext(s: Sys, c: seq<Ptr>, a: Action)
    requires QueueOk(s, c) && CallOk(s)
    ensures CallOk(Next(s, a))
  {
    hide Inv, PopStep;
    Facts(s, c);
    if a.Produce? && Can(s, a) && s.ec.sends[a.p].Pushing? {
      PushSelf(s.q.mem, Producer(a.p));
    }
  }

  /** While a command is called its node is allocated, out of everybody else's reach, and still holds it. */
  lemma {:induction false} CommandAliveWhileCalled(acts: seq<Action>, stubSelf: Msg)
    ensures CallOk(After(acts, stubSelf))
    ensures var s := After(acts, stubSelf);
      s.run.CallCommand? ==>
        s.run.r in s.q.mem.heap && s.run.r in s.q.out && s.run.r !in Chain(acts, stubSelf)
  {
    hide QueueOk, CallOk, Next, NextChain;
    SysInvAlways(acts, stubSelf);
    Facts(After(acts, stubSelf), Chain(acts, stubSelf));
    CalledInHand(After(acts, stubSelf), Chain(acts, stubSelf));
    if acts == [] {
      assert CallOk(Start(stubSelf)) by { NothingCalled(stubSelf); }
    } else {
      var k := |acts| - 1;
      CommandAliveWhileCalled(acts[..k], stubSelf);
      SysInvAlways(acts[..k], stubSelf);
      CallOkNext(After(acts[..k], stubSelf), Chain(acts[..k], stubSelf), acts[k]);
    }
  }

  lemma CalledInHand(s: Sys, c: seq<Ptr>)
    requires QueueOk(s, c)
    ensures s.run.CallCommand? ==> s.run.r in s.q.out && s.run.r in InHand(s)
  {
  }

  lemma NothingCalled(stubSelf: Msg)
    ensures CallOk(Start(stubSelf))
  {
  }

  // ---------- Wake-up ----------

  /**
    No lost wake-up: when the running thread is blocked in `sem_wait` on zero and no
    producer is between its exchange and the end of its notification, the queue is empty.
   */
  lemma NoLostWakeup(acts: seq<Action>, stubSelf: Msg)
    requires After(acts, stubSelf).run.Commit? && After(acts, stubSelf).ec.sem == 0
    requires forall p :: !Poster(After(acts, stubSelf).ec, After(acts, stubSelf).q.mem, p)
    ensures Contents(After(acts, stubSelf).q, Chain(acts, stubSelf)) == []
    ensures After(acts, stubSelf).ec.waiting
  {
    SysInvAlways(acts, stubSelf);
    var s := After(acts, stubSelf);
    if Posting(s.ec) {
      var p :| p in s.ec.sends && s.ec.sends[p].Post?;
      assert Poster(s.ec, s.q.mem, p);
    }
  }

  // ---------- Idle rounds ----------

  /** Waits already completed, tokens there to be taken, and tokens that may still be posted. */
  function Tokens(s: Sys): nat {
    s.waits + s.ec.sem + |Posters(s.ec, s.q.mem)|
  }

  lemma PostersProduce(s: Sys, c: seq<Ptr>, p: nat)
    requires QueueOk(s, c) && Can(s, Produce(p))
    ensures var s' := Next(s, Produce(p));
      && Posters(s'.ec, s'.q.mem) - {p} == Posters(s.ec, s.q.mem) - {p}
      && (p in Posters(s.ec, s.q.mem) <==> !(s.ec.sends[p].Pushing? && !Linking(s.q.mem, Producer(p))))
      && (p in Posters(s'.ec, s'.q.mem) ==>
            p in Posters(s.ec, s.q.mem) || (s.ec.sends[p].Pushing? && Exchanges(s.q.mem, Producer(p))))
      && (s.ec.sends[p].Post? ==> p !in Posters(s'.ec, s'.q.mem))
  {
    hide Inv;
  }

  lemma PostersOthers(s: Sys, c: seq<Ptr>, a: Action)
    requires QueueOk(s, c) && Can(s, a) && !a.Produce?
    ensures Posters(Next(s, a).ec, Next(s, a).q.mem) == Posters(s.ec, s.q.mem)
  {
    hide Inv;
    if a.Consume? {
      ConsumeHeap(s, c);
    }
  }

  lemma TokensProduce(s: Sys, c: seq<Ptr>, p: nat)
    requires QueueOk(s, c) && Can(s, Produce(p))
    ensures Tokens(Next(s, Produce(p))) <= Tokens(s) + |Next(s, Produce(p)).sent| - |s.sent|
  {
    hide QueueOk, Posters, PushStep;
    var s' := Next(s, Produce(p));
    PostersProduce(s, c, p);
    RemoveOne(Posters(s.ec, s.q.mem), p);
    RemoveOne(Posters(s'.ec, s'.q.mem), p);
  }

  /** Only an exchange adds a token, and each completed wait consumes one. */
  lemma TokensStep(s: Sys, c: seq<Ptr>, a: Action)
    requires QueueOk(s, c)
    ensures Tokens(Next(s, a)) <= Tokens(s) + |Next(s, a).sent| - |s.sent|
  {
    hide QueueOk, Posters, PopStep, PushStep;
    if Can(s, a) {
      match a
      case Send(_, _, _, _) => PostersOthers(s, c, a);
      case Consume => PostersOthers(s, c, a);
      case Produce(p) => TokensProduce(s, c, p);
    }
  }

  lemma {:induction false} TokensThrough(acts: seq<Action>, stubSelf: Msg, i: nat)
    requires i <= |acts|
    ensures Tokens(After(acts, stubSelf)) - |After(acts, stubSelf).sent|
         <= Tokens(After(acts[..i], stubSelf)) - |After(acts[..i], stubSelf).sent|
  {
    if i == |acts| {
      assert acts[..i] == acts;
    } else {
      var k := |acts| - 1;
      TokensThrough(acts[..k], stubSelf, i);
      assert acts[..k][..i] == acts[..i];
      SysInvAlways(acts[..k], stubSelf);
      TokensStep(After(acts[..k], stubSelf), Chain(acts[..k], stubSelf), acts[k]);
    }
  }

  /**
    From any state on, `out` completes at most as many waits as there are tokens in the
    semaphore, producers still notifying, and messages exchanged in the meantime.
   */
  lemma IdleRoundsBounded(acts: seq<Action>, stubSelf: Msg, i: nat)
    requires i <= |acts|
    ensures var s, s' := After(acts[..i], stubSelf), After(acts, stubSelf);
      s'.waits - s.waits <= s.ec.sem + |Posters(s.ec, s.q.mem)| + (|s'.sent| - |s.sent|)
    ensures After(acts, stubSelf).waits + After(acts, stubSelf).ec.sem <= |After(acts, stubSelf).sent|
  {
    TokensThrough(acts, stubSelf, i);
    TokensThrough(acts, stubSelf, 0);
    assert Posters(Start(stubSelf).ec, Start(stubSelf).q.mem) == {};
  }

  // ---------- Progress of the running thread alone ----------

  function Alone(s: Sys, steps: nat): Sys
    decreases steps
  {
    if steps == 0 then s else Alone(Next(s, Consume), steps - 1)
  }

  function ChainAfter(s: Sys, c: seq<Ptr>, steps: nat): seq<Ptr>
    decreases steps
  {
    if steps == 0 then c else ChainAfter(Next(s, Consume), NextChain(s, c, Consume), steps - 1)
  }

  lemma {:induction false} AloneAdd(s: Sys, c: seq<Ptr>, i: nat, j: nat)
    ensures Alone(s, i + j) == Alone(Alone(s, i), j)
    ensures ChainAfter(s, c, i + j) == ChainAfter(Alone(s, i), ChainAfter(s, c, i), j)
    decreases i
  {
    if i > 0 {
      AloneAdd(Next(s, Consume), NextChain(s, c, Consume), i - 1, j);
      assert i + j - 1 == (i - 1) + j;
    }
  }

  lemma {:induction false} PopPhase(s: Sys, c: seq<Ptr>, steps: nat) returns (k: nat)
    requires s.run.InPop?
    ensures Alone(s, k) == s.(q := PopAlone(s.q, steps))
    ensures ChainAfter(s, c, k) == ChainAlone(s.q, c, steps)
    decreases steps
  {
    if steps == 0 || !CanPop(s.q) {
      k := 0;
    } else {
      k := PopPhase(s.(q := PopStep(s.q)), PopChain(s.q, c), steps - 1);
      k := k + 1;
    }
  }

  /** At the head of the `receive` loop, with no link missing. */
  ghost predicate Settled(s: Sys, c: seq<Ptr>) {
    QueueOk(s, c) && s.run == InPop(Outer) && s.q.pop == LoadHead && !ProducerLinking(s.q.mem)
  }

  lemma SameLinking(m: Mem, m': Mem)
    requires forall t: Thread | t.Producer? :: t in m'.pushes <==> t in m.pushes
    requires forall t: Thread | t.Producer? && t in m.pushes :: m'.pushes[t] == m.pushes[t]
    ensures ProducerLinking(m) <==> ProducerLinking(m')
  {
  }

  /** One consumer step of a system with no link missing leaves none missing. */
  lemma AloneStep(s: Sys, c: seq<Ptr>)
    requires QueueOk(s, c)
    ensures QueueOk(Next(s, Consume), NextChain(s, c, Consume))
    ensures ProducerLinking(s.q.mem) <==> ProducerLinking(Next(s, Consume).q.mem)
    ensures Can(s, Consume) && !s.run.InPop? ==>
      Contents(Next(s, Consume).q, NextChain(s, c, Consume)) == Contents(s.q, c)
    ensures !s.q.mem.fault
  {
    hide Inv;
    QueueOkNext(s, c, Consume);
    Facts(s, c);
    if Can(s, Consume) {
      QueueOkConsume(s, c);
      ConsumeHeap(s, c);
      SameLinking(s.q.mem, Next(s, Consume).q.mem);
    }
  }

  lemma {:induction false} AloneKeeps(s: Sys, c: seq<Ptr>, steps: nat)
    requires QueueOk(s, c)
    ensures QueueOk(Alone(s, steps), ChainAfter(s, c, steps))
    ensures ProducerLinking(s.q.mem) <==> ProducerLinking(Alone(s, steps).q.mem)
    decreases steps
  {
    if steps > 0 {
      AloneStep(s, c);
      AloneKeeps(Next(s, Consume), NextChain(s, c, Consume), steps - 1);
    }
  }

  /** From `node->self` to the end of `receive`. */
  lemma CommandPhase(s: Sys, c: seq<Ptr>, msg: Msg) returns (k: nat)
    requires QueueOk(s, c) && s.run.GetCommand? && SelfOf(s.q.mem.heap, s.run.r) == msg
    ensures var s', c' := Alone(s, k), ChainAfter(s, c, k);
      && Contents(s'.q, c') == Contents(s.q, c)
      && s'.ec == s.ec && s'.waits == s.waits && s'.sent == s.sent
      && (msg.Command? ==> s'.called == s.called + [msg.id] && s'.run == InPop(Outer) && s'.q.pop == LoadHead)
      && (msg.NullMsg? ==> s'.called == s.called && s'.run.Stopped?)
  {
    hide Inv;
    Facts(s, c);
    var s1, c1 := Next(s, Consume), NextChain(s, c, Consume);
    AloneStep(s, c);
    var s2, c2 := Next(s1, Consume), NextChain(s1, c1, Consume);
    AloneStep(s1, c1);
    AloneTwo(s, c);
    if msg.NullMsg? {
      k := 2;
    } else {
      AloneStep(s2, c2);
      k := 3;
      AloneAdd(s, c, 2, 1);
      AloneOne(s2, c2);
    }
  }

  lemma AloneOne(s: Sys, c: seq<Ptr>)
    ensures Alone(s, 1) == Next(s, Consume) && ChainAfter(s, c, 1) == NextChain(s, c, Consume)
  {
    assert Alone(Next(s, Consume), 0) == Next(s, Consume);
    assert ChainAfter(Next(s, Consume), NextChain(s, c, Consume), 0) == NextChain(s, c, Consume);
  }

  lemma AloneTwo(s: Sys, c: seq<Ptr>)
    ensures var s1, c1 := Next(s, Consume), NextChain(s, c, Consume);
      Alone(s, 2) == Next(s1, Consume) && ChainAfter(s, c, 2) == NextChain(s1, c1, Consume)
  {
    AloneOne(Next(s, Consume), NextChain(s, c, Consume));
  }

  /** From the end of a successful `pop` to the end of `receive`; a recheck also clears the flag again. */
  lemma DispatchPhase(s: Sys, c: seq<Ptr>, msg: Msg) returns (k: nat)
    requires QueueOk(s, c) && s.run.InPop? && s.q.pop.Done? && s.q.pop.result != Null
    requires SelfOf(s.q.mem.heap, s.q.pop.result) == msg
    ensures var s', c' := Alone(s, k), ChainAfter(s, c, k);
      && Contents(s'.q, c') == Contents(s.q, c)
      && s'.ec == (if s.run.site.Outer? then s.ec else s.ec.(waiting := false))
      && s'.waits == s.waits && s'.sent == s.sent
      && (msg.Command? ==> s'.called == s.called + [msg.id] && s'.run == InPop(Outer) && s'.q.pop == LoadHead)
      && (msg.NullMsg? ==> s'.called == s.called && s'.run.Stopped?)
  {
    hide Inv;
    Facts(s, c);
    var s1, c1 := Next(s, Consume), NextChain(s, c, Consume);
    AloneStep(s, c);
    if s.run.site.Outer? {
      var j := CommandPhase(s1, c1, msg);
      AloneOne(s, c);
      AloneAdd(s, c, 1, j);
      k := 1 + j;
    } else {
      var s2, c2 := Next(s1, Consume), NextChain(s1, c1, Consume);
      AloneStep(s1, c1);
      var j := CommandPhase(s2, c2, msg);
      AloneTwo(s, c);
      AloneAdd(s, c, 2, j);
      k := 2 + j;
    }
  }

  /** A call of `pop` that is about to start, with no link missing. */
  ghost predicate Poised(s: Sys, c: seq<Ptr>) {
    QueueOk(s, c) && s.run.InPop? && s.q.pop == LoadHead && !ProducerLinking(s.q.mem)
  }

  /**
    A receive on a settled, non-empty queue handles the oldest message without waiting, and
    so does one that is at its recheck, which then clears the flag it has set.
   */
  lemma ReceiveOne(s: Sys, c: seq<Ptr>) returns (k: nat)
    requires Poised(s, c) && Contents(s.q, c) != []
    ensures var s', c', m := Alone(s, k), ChainAfter(s, c, k), Contents(s.q, c)[0];
      && QueueOk(s', c') && !ProducerLinking(s'.q.mem)
      && Contents(s'.q, c') == Contents(s.q, c)[1..]
      && s'.ec == (if s.run.site.Outer? then s.ec else s.ec.(waiting := false))
      && s'.waits == s.waits && s'.sent == s.sent
      && (m.Command? ==> s'.called == s.called + [m.id] && Settled(s', c'))
      && (m.NullMsg? ==> s'.called == s.called && s'.run.Stopped?)
  {
    hide Inv, Contents, Next, NextChain, PopStep;
    var i := PopPhase(s, c, 10);
    var s1, c1 := Alone(s, i), ChainAfter(s, c, i);
    AloneKeeps(s, c, i);
    UndisturbedPop(s.q, c);
    var j := DispatchPhase(s1, c1, Contents(s.q, c)[0]);
    k := i + j;
    AloneAdd(s, c, i, j);
    AloneKeeps(s1, c1, j);
  }

  function FirstNull(ms: seq<Msg>): nat
    ensures FirstNull(ms) <= |ms|
  {
    if ms == [] || ms[0].NullMsg? then 0 else 1 + FirstNull(ms[1..])
  }

  /**
    Left alone with every link written, the running thread calls all queued commands up
    to the first null message, in order and without one wait.
   */
  lemma {:induction false} Drain(s: Sys, c: seq<Ptr>) returns (k: nat)
    requires Settled(s, c)
    ensures var s', c', ms := Alone(s, k), ChainAfter(s, c, k), Contents(s.q, c);
      var j := FirstNull(ms);
      && s'.called == s.called + Ids(ms[..j])
      && s'.waits == s.waits && s'.ec == s.ec && s'.sent == s.sent
      && (j == |ms| ==> Settled(s', c') && Contents(s'.q, c') == [])
      && (j < |ms| ==> s'.run.Stopped? && Contents(s'.q, c') == ms[j + 1..])
    decreases |Contents(s.q, c)|
  {
    hide QueueOk, Contents, Next, NextChain;
    var ms := Contents(s.q, c);
    if ms == [] {
      k := 0;
    } else {
      var i := ReceiveOne(s, c);
      var s1, c1 := Alone(s, i), ChainAfter(s, c, i);
      if ms[0].NullMsg? {
        k := i;
      } else {
        var r := Drain(s1, c1);
        k := i + r;
        AloneAdd(s, c, i, r);
        var j := FirstNull(ms[1..]);
        assert FirstNull(ms) == j + 1;
        assert ms[..j + 1][0] == ms[0] && ms[..j + 1][1..] == ms[1..][..j];
        assert Ids(ms[..j + 1]) == [ms[0].id] + Ids(ms[1..][..j]);
        assert j < |ms[1..]| ==> ms[1..][j + 1..] == ms[j + 2..];
      }
    }
  }

  /** On an empty queue each token in the semaphore costs one round, and then `out` blocks. */
  lemma {:induction false} SpinDown(s: Sys, c: seq<Ptr>) returns (k: nat)
    requires Settled(s, c) && Contents(s.q, c) == []
    ensures var s', c' := Alone(s, k), ChainAfter(s, c, k);
      && s'.run.Commit? && s'.ec == s.ec.(sem := 0, waiting := true) && s'.waits == s.waits + s.ec.sem
      && s'.called == s.called && Contents(s'.q, c') == []
    decreases s.ec.sem
  {
    hide Inv, Contents, PopStep, PopChain;
    var i := IdleRound(s, c);
    var s1, c1 := Alone(s, i), ChainAfter(s, c, i);
    if s1.ec.sem == 0 {
      k := i;
    } else {
      var s2, c2 := Next(s1, Consume), NextChain(s1, c1, Consume);
      AloneStep(s1, c1);
      var r := SpinDown(s2, c2);
      AloneAdd(s, c, i, 1 + r);
      assert Alone(s1, 1 + r) == Alone(s2, r) && ChainAfter(s1, c1, 1 + r) == ChainAfter(s2, c2, r);
      k := i + (1 + r);
    }
  }

  /** pop, prepare, pop, commit: from the loop head to `sem_wait` on an empty queue. */
  lemma IdleRound(s: Sys, c: seq<Ptr>) returns (k: nat)
    requires Settled(s, c) && Contents(s.q, c) == []
    ensures var s', c' := Alone(s, k), ChainAfter(s, c, k);
      && QueueOk(s', c') && !ProducerLinking(s'.q.mem)
      && s'.run.Commit? && s'.ec == s.ec.(waiting := true) && s'.waits == s.waits && s'.called == s.called
      && s'.sent == s.sent && Contents(s'.q, c') == []
  {
    hide Linked;
    var i := NullPhase(s, c);
    var s1, c1 := Alone(s, i), ChainAfter(s, c, i);
    AloneKeeps(s, c, i);
    var s2 := Next(s1, Consume);
    AloneStep(s1, c1);
    assert Alone(s1, 1) == s2 && ChainAfter(s1, c1, 1) == c1 by { assert Alone(s2, 0) == s2; }
    AloneAdd(s, c, i, 1);
    var j := NullPhase(s2, c1);
    AloneKeeps(s2, c1, j);
    AloneAdd(s, c, i + 1, j);
    k := i + 1 + j;
  }

  /** A whole `pop` on the empty queue, and what `out` does with its null. */
  lemma NullPhase(s: Sys, c: seq<Ptr>) returns (k: nat)
    requires QueueOk(s, c) && s.run.InPop? && s.q.pop == LoadHead
    requires Contents(s.q, c) == []
    ensures Alone(s, k) == s.(q := s.q.(pop := Idle), run := AfterPop(s.run.site, Null))
    ensures ChainAfter(s, c, k) == c
  {
    hide Linked;
    var i := PopPhase(s, c, 10);
    EmptyPop(s.q, c);
    var s1 := Alone(s, i);
    assert s1 == s.(q := s.q.(pop := Done(Null)));
    AloneAdd(s, c, i, 1);
    var s2 := Next(s1, Consume);
    assert Alone(s1, 1) == s2 by { assert Alone(s2, 0) == s2; }
    assert ChainAfter(s1, c, 1) == c by { assert ChainAfter(s2, NextChain(s1, c, Consume), 0) == c; }
    k := i + 1;
  }
}
