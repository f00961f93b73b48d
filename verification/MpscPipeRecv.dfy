/**
  What `MpscPipe::recv` returns and when, how often it may wait, and what a receiver does
  that is left alone.
 */
module MpscPipeRecv {
  import opened MpscMemory
  import opened Eventcount
  import opened Fifo
  import opened Sending
  import opened MpscSteps
  import opened MpscPops
  import opened MpscPipeSteps

  // ---------- One call, one datum ----------

  /** The datum that `recv` returns with the receiver's next step, if that step is its return. */
  function Returned(s: Sys): Option<Msg> {
    match s.recv
    case InPop(Outer) => if s.q.pop.Done? then s.q.pop.result else None
    case Cancel(data) => Some(data)
    case _ => None
  }

  /**
    `recv` returns exactly with a datum: a step that leaves the call appends one datum to
    what was received, and no other step changes that.
   */
  lemma RecvReturns(s: Sys, a: Action)
    ensures var s' := Next(s, a);
      && (s.recv != Outside && s'.recv == Outside ==>
            Returned(s).Some? && s'.received == s.received + [Returned(s).value])
      && (s.recv == Outside || s'.recv != Outside ==> s'.received == s.received)
  {
  }

  /** The calls of `recv` that have returned, in a run. */
  function Returns(acts: seq<Action>, dummy: nat, junk: Msg): nat {
    if acts == [] then 0
    else
      var k := |acts| - 1;
      var s, s' := After(acts[..k], dummy, junk), After(acts, dummy, junk);
      Returns(acts[..k], dummy, junk) + if s.recv != Outside && s'.recv == Outside then 1 else 0
  }

  /** The i-th call of `recv` to return has returned the i-th datum sent. */
  lemma {:induction false} CallsReturnInOrder(acts: seq<Action>, dummy: nat, junk: Msg)
    ensures var s := After(acts, dummy, junk);
      Returns(acts, dummy, junk) == |s.received| <= |s.sent| && s.received == Messages(s.sent)[..|s.received|]
  {
    PipeDelivers(acts, dummy, junk);
    if acts != [] {
      hide Next;
      CallsReturnInOrder(acts[..|acts| - 1], dummy, junk);
      RecvReturns(After(acts[..|acts| - 1], dummy, junk), acts[|acts| - 1]);
    }
  }

  // ---------- Waits ----------

  /** Waits already completed, tokens there to be taken, and tokens that may still be posted. */
  function Tokens(s: Sys): nat {
    s.waits + s.ec.sem + |Posters(s.ec, s.q.mem)|
  }

  lemma PostersProduce(s: Sys, c: seq<Ptr>, p: nat)
    requires QueueOk(s, c) && Can(s, Produce(p))
    ensures var s' := Next(s, Produce(p));
      && Posters(s'.ec, s'.q.mem) - {p} == Posters(s.ec, s.q.mem) - {p}
      && (p in Posters(s'.ec, s'.q.mem) ==>
            p in Posters(s.ec, s.q.mem) || (s.ec.sends[p].Pushing? && Exchanges(s.q.mem, Producer(p))))
      && (s.ec.sends[p].Post? ==> p in Posters(s.ec, s.q.mem) && p !in Posters(s'.ec, s'.q.mem))
      && (s.ec.sends[p].Pushing? && Exchanges(s.q.mem, Producer(p)) ==> p !in Posters(s.ec, s.q.mem))
  {
    hide Inv, PopStep;
    if QueueAct(s, Produce(p)).Some? {
      Pushes(s.q, DoPush(p));
    }
  }

  lemma PostersOthers(s: Sys, c: seq<Ptr>, a: Action)
    requires QueueOk(s, c) && Can(s, a) && !a.Produce?
    ensures Posters(Next(s, a).ec, Next(s, a).q.mem) == Posters(s.ec, s.q.mem)
  {
    hide Inv, PopStep, PushStep;
    if QueueAct(s, a).Some? {
      QueueOkNext(s, c, a);
      Pushes(s.q, QueueAct(s, a).value);
    }
  }

  lemma TokensProduce(s: Sys, c: seq<Ptr>, p: nat)
    requires QueueOk(s, c) && Can(s, Produce(p))
    ensures Tokens(Next(s, Produce(p))) <= Tokens(s) + |Next(s, Produce(p)).sent| - |s.sent|
  {
    hide QueueOk, Posters, Step;
    var s' := Next(s, Produce(p));
    PostersProduce(s, c, p);
    RemoveOne(Posters(s.ec, s.q.mem), p);
    RemoveOne(Posters(s'.ec, s'.q.mem), p);
  }

  /** Only an exchange adds a token, and each completed wait consumes one. */
  lemma TokensStep(s: Sys, c: seq<Ptr>, a: Action)
    requires QueueOk(s, c)
    ensures Tokens(Next(s, a)) <= Tokens(s) + |Next(s, a).sent| - |s.sent|
  {
    hide QueueOk, Posters, Step;
    if Can(s, a) {
      match a
      case Send(_, _, _, _) => PostersOthers(s, c, a);
      case Consume => PostersOthers(s, c, a);
      case Produce(p) => TokensProduce(s, c, p);
    }
  }

  lemma {:induction false} TokensThrough(acts: seq<Action>, dummy: nat, junk: Msg, i: nat)
    requires i <= |acts|
    ensures Tokens(After(acts, dummy, junk)) - |After(acts, dummy, junk).sent|
         <= Tokens(After(acts[..i], dummy, junk)) - |After(acts[..i], dummy, junk).sent|
  {
    if i == |acts| {
      assert acts[..i] == acts;
    } else {
      hide Next, Tokens;
      var k := |acts| - 1;
      TokensThrough(acts[..k], dummy, junk, i);
      assert acts[..k][..i] == acts[..i];
      SysInvAlways(acts[..k], dummy, junk);
      TokensStep(After(acts[..k], dummy, junk), Chain(acts[..k], dummy, junk), acts[k]);
    }
  }

  /**
    From any state on, receivers complete at most as many waits as there are tokens in the
    semaphore, producers still notifying, and data exchanged in the meantime.
   */
  lemma WaitsBounded(acts: seq<Action>, dummy: nat, junk: Msg, i: nat)
    requires i <= |acts|
    ensures var s, s' := After(acts[..i], dummy, junk), After(acts, dummy, junk);
      s'.waits - s.waits <= s.ec.sem + |Posters(s.ec, s.q.mem)| + (|s'.sent| - |s.sent|)
    ensures After(acts, dummy, junk).waits + After(acts, dummy, junk).ec.sem <= |After(acts, dummy, junk).sent|
  {
    TokensThrough(acts, dummy, junk, i);
    TokensThrough(acts, dummy, junk, 0);
    assert Posters(Start(dummy, junk).ec, Start(dummy, junk).q.mem) == {};
  }

  // ---------- The receiver alone ----------

  function Alone(s: Sys, steps: nat): Sys
    decreases steps
  {
    if steps == 0 then s else Alone(Next(s, Consume), steps - 1)
  }

  function ChainAfter(s: Sys, c: seq<Ptr>, steps: nat): seq<Ptr>
    decreases steps
  {
    if steps == 0 then c else ChainAfter(Next(s, Consume), NextChain(s, c, Consume), steps - 1)
  }

  lemma {:induction false} AloneAdd(s: Sys, c: seq<Ptr>, i: nat, j: nat)
    ensures Alone(s, i + j) == Alone(Alone(s, i), j)
    ensures ChainAfter(s, c, i + j) == ChainAfter(Alone(s, i), ChainAfter(s, c, i), j)
    decreases i
  {
    if i > 0 {
      AloneAdd(Next(s, Consume), NextChain(s, c, Consume), i - 1, j);
      assert i + j - 1 == (i - 1) + j;
    }
  }

  lemma AloneOne(s: Sys, c: seq<Ptr>)
    ensures Alone(s, 1) == Next(s, Consume) && ChainAfter(s, c, 1) == NextChain(s, c, Consume)
  {
    assert Alone(Next(s, Consume), 0) == Next(s, Consume);
    assert ChainAfter(Next(s, Consume), NextChain(s, c, Consume), 0) == NextChain(s, c, Consume);
  }

  lemma {:induction false} PopPhase(s: Sys, c: seq<Ptr>, steps: nat) returns (k: nat)
    requires s.recv.InPop? && !s.q.pop.Idle?
    ensures Alone(s, k) == s.(q := PopAlone(s.q, steps))
    ensures ChainAfter(s, c, k) == ChainAlone(s.q, c, steps)
    decreases steps
  {
    if steps == 0 {
      k := 0;
    } else if s.q.pop.Done? {
      DoneStays(s.q, c, steps);
      k := 0;
    } else {
      PopGoesOn(s.q);
      k := PopPhase(s.(q := Step(s.q, DoPop)), ChainStep(s.q, c, DoPop), steps - 1);
      k := k + 1;
    }
  }

  lemma PopGoesOn(q: Queue)
    requires !q.pop.Idle?
    ensures !Step(q, DoPop).pop.Idle?
  {
  }

  lemma {:induction false} DoneStays(q: Queue, c: seq<Ptr>, steps: nat)
    requires q.pop.Done?
    ensures PopAlone(q, steps) == q && ChainAlone(q, c, steps) == c
    decreases steps
  {
    if steps > 0 {
      DoneStays(q, c, steps - 1);
    }
  }

  /** A call of `pop` that is about to start, with no link missing. */
  ghost predicate Poised(s: Sys, c: seq<Ptr>) {
    QueueOk(s, c) && s.recv.InPop? && s.q.pop == LoadHead && !ProducerLinking(s.q.mem)
  }

  /** The receiver's step leaves pushes alone, and changes the content inside `pop` alone. */
  lemma AloneStep(s: Sys, c: seq<Ptr>)
    requires QueueOk(s, c)
    ensures QueueOk(Next(s, Consume), NextChain(s, c, Consume))
    ensures Next(s, Consume).q.mem.pushes == s.q.mem.pushes
    ensures !s.recv.InPop? || s.q.pop.Done? ==>
      Contents(Next(s, Consume).q, NextChain(s, c, Consume)) == Contents(s.q, c)
  {
    hide Inv;
    QueueOkNext(s, c, Consume);
  }

  lemma {:induction false} AloneKeeps(s: Sys, c: seq<Ptr>, steps: nat)
    requires QueueOk(s, c)
    ensures QueueOk(Alone(s, steps), ChainAfter(s, c, steps))
    ensures Alone(s, steps).q.mem.pushes == s.q.mem.pushes
    decreases steps
  {
    hide QueueOk, Next, NextChain;
    if steps > 0 {
      AloneStep(s, c);
      AloneKeeps(Next(s, Consume), NextChain(s, c, Consume), steps - 1);
    }
  }

  /** A whole `pop` with no link missing, and what `out` does with its answer. */
  lemma PopAndReturn(s: Sys, c: seq<Ptr>) returns (k: nat)
    requires Poised(s, c)
    ensures var s', c', items := Alone(s, k), ChainAfter(s, c, k), Contents(s.q, c);
      && QueueOk(s', c') && !ProducerLinking(s'.q.mem)
      && s'.ec == s.ec && s'.waits == s.waits && s'.sent == s.sent
      && Contents(s'.q, c') == (if items == [] then [] else items[1..])
      && (items == [] ==>
            s'.recv == (if s.recv.site.Outer? then Prepare else Commit) && s'.received == s.received)
      && (items != [] && s.recv.site.Outer? ==> s'.recv == Outside && s'.received == s.received + [items[0]])
      && (items != [] && s.recv.site.Recheck? ==> s'.recv == Cancel(items[0]) && s'.received == s.received)
  {
    hide Inv, Contents, Step, ChainStep;
    var i := PopPhase(s, c, 5);
    UndisturbedPop(s.q, c);
    var s1, c1 := Alone(s, i), ChainAfter(s, c, i);
    AloneKeeps(s, c, i);
    AloneStep(s1, c1);
    AloneOne(s1, c1);
    AloneAdd(s, c, i, 1);
    k := i + 1;
  }

  /**
    With data queued and no link missing, `recv` returns the oldest without a wait, and so
    does one that is at its recheck, which then clears the flag it has set.
   */
  lemma RecvOne(s: Sys, c: seq<Ptr>) returns (k: nat)
    requires Poised(s, c) && Contents(s.q, c) != []
    ensures var s', c' := Alone(s, k), ChainAfter(s, c, k);
      && QueueOk(s', c') && !ProducerLinking(s'.q.mem)
      && s'.recv == Outside && s'.received == s.received + [Contents(s.q, c)[0]]
      && Contents(s'.q, c') == Contents(s.q, c)[1..]
      && s'.ec == (if s.recv.site.Outer? then s.ec else s.ec.(waiting := false))
      && s'.waits == s.waits && s'.sent == s.sent
  {
    hide Inv, Contents, Step, ChainStep;
    k := PopAndReturn(s, c);
    if s.recv.site.Recheck? {
      var s1, c1 := Alone(s, k), ChainAfter(s, c, k);
      AloneStep(s1, c1);
      AloneOne(s1, c1);
      AloneAdd(s, c, k, 1);
      k := k + 1;
    }
  }

  /** pop, prepare, pop: from the first `pop` to `sem_wait` on an empty queue, with the flag set. */
  lemma IdleRound(s: Sys, c: seq<Ptr>) returns (k: nat)
    requires Poised(s, c) && s.recv.site.Outer? && Contents(s.q, c) == []
    ensures var s', c' := Alone(s, k), ChainAfter(s, c, k);
      && QueueOk(s', c') && !ProducerLinking(s'.q.mem)
      && s'.recv == Commit && s'.ec == s.ec.(waiting := true) && s'.waits == s.waits
      && s'.received == s.received && s'.sent == s.sent && Contents(s'.q, c') == []
  {
    hide Inv, Contents, ChainStep;
    var i := PopAndReturn(s, c);
    var s1, c1 := Alone(s, i), ChainAfter(s, c, i);
    var s2, c2 := Next(s1, Consume), NextChain(s1, c1, Consume);
    AloneStep(s1, c1);
    AloneOne(s1, c1);
    AloneAdd(s, c, i, 1);
    var j := PopAndReturn(s2, c2);
    AloneAdd(s, c, i + 1, j);
    k := i + 1 + j;
  }

  /** On an empty queue each token in the semaphore costs one round, and then `recv` blocks. */
  lemma {:induction false} SpinDown(s: Sys, c: seq<Ptr>) returns (k: nat)
    requires Poised(s, c) && s.recv.site.Outer? && Contents(s.q, c) == []
    ensures var s', c' := Alone(s, k), ChainAfter(s, c, k);
      && s'.recv == Commit && s'.ec == s.ec.(sem := 0, waiting := true) && s'.waits == s.waits + s.ec.sem
      && s'.received == s.received && s'.sent == s.sent && Contents(s'.q, c') == []
    decreases s.ec.sem
  {
    hide Inv, Contents, ChainStep;
    k := IdleRound(s, c);
    if s.ec.sem > 0 {
      var s1, c1 := Alone(s, k), ChainAfter(s, c, k);
      var s2, c2 := Next(s1, Consume), NextChain(s1, c1, Consume);
      AloneStep(s1, c1);
      AloneOne(s1, c1);
      AloneAdd(s, c, k, 1);
      var r := SpinDown(s2, c2);
      AloneAdd(s, c, k + 1, r);
      k := k + 1 + r;
    }
  }

  /** Left alone with no link missing, a receiver that keeps calling `recv` gets everything queued, and then blocks. */
  lemma {:induction false} DrainAndBlock(s: Sys, c: seq<Ptr>) returns (k: nat)
    requires QueueOk(s, c) && s.recv == Outside && !ProducerLinking(s.q.mem)
    ensures var s', c' := Alone(s, k), ChainAfter(s, c, k);
      && s'.recv == Commit && s'.ec == s.ec.(sem := 0, waiting := true) && s'.waits == s.waits + s.ec.sem
      && s'.received == s.received + Contents(s.q, c) && s'.sent == s.sent && Contents(s'.q, c') == []
    decreases |Contents(s.q, c)|
  {
    hide Inv, Contents, ChainStep;
    var s1, c1 := Next(s, Consume), NextChain(s, c, Consume);
    AloneStep(s, c);
    AloneOne(s, c);
    var j: nat;
    if Contents(s.q, c) == [] {
      j := SpinDown(s1, c1);
    } else {
      var i := RecvOne(s1, c1);
      var r := DrainAndBlock(Alone(s1, i), ChainAfter(s1, c1, i));
      AloneAdd(s1, c1, i, r);
      j := i + r;
    }
    AloneAdd(s, c, 1, j);
    k := 1 + j;
  }
}
