/**
  Progress of requests: a call always comes to its end, and every request that was made is
  answered to everybody who waits for it, unless a null message ends `run` before.
 */
module RequestsProgress {
  import opened MpscMemory
  import opened Fifo
  import opened Sending
  import opened IntMpscSteps
  import opened MessageQueueSteps
  import opened Requests
  import F = Future
  import FutureProgress
  import MessageQueueProgress

  // ---------- Continuations ----------

  function Then(r: RSys, more: seq<RAct>, eval: nat -> int): RSys
    decreases |more|
  {
    if more == [] then r else Then(NextR(r, more[0], eval), more[1..], eval)
  }

  lemma {:induction false} ThenAppend(r: RSys, a: seq<RAct>, b: seq<RAct>, eval: nat -> int)
    ensures Then(r, a + b, eval) == Then(Then(r, a, eval), b, eval)
    decreases |a|
  {
    if a == [] {
      assert a + b == b;
    } else {
      ThenAppend(NextR(r, a[0], eval), a[1..], b, eval);
      assert (a + b)[1..] == a[1..] + b;
    }
  }

  lemma {:induction false} AfterThen(acts: seq<RAct>, more: seq<RAct>, stubSelf: Msg, eval: nat -> int)
    ensures Requests.After(acts + more, stubSelf, eval) == Then(Requests.After(acts, stubSelf, eval), more, eval)
    decreases |more|
  {
    if more == [] {
      assert acts + more == acts;
    } else {
      AfterThen(acts + [more[0]], more[1..], stubSelf, eval);
      assert (acts + [more[0]])[..|acts|] == acts;
      assert acts + more == acts + [more[0]] + more[1..];
    }
  }

  function QueueThen(s: Sys, more: seq<Action>): Sys
    decreases |more|
  {
    if more == [] then s else QueueThen(Next(s, more[0]), more[1..])
  }

  lemma {:induction false} QueueAfterThen(acts: seq<Action>, more: seq<Action>, stubSelf: Msg)
    ensures MessageQueueSteps.After(acts + more, stubSelf) == QueueThen(MessageQueueSteps.After(acts, stubSelf), more)
    decreases |more|
  {
    if more == [] {
      assert acts + more == acts;
    } else {
      hide Next;
      QueueAfterThen(acts + [more[0]], more[1..], stubSelf);
      assert (acts + [more[0]])[..|acts|] == acts;
      assert acts + more == acts + [more[0]] + more[1..];
    }
  }

  /** Nothing new is sent, asked or awaited. */
  ghost predicate GoingOn(more: seq<RAct>) {
    forall a | a in more :: a.Produce? || a.Consume? || a.Deliver? || (a.Await? && a.a.Wait?)
  }

  lemma GoingOnParts(a: seq<RAct>, b: seq<RAct>)
    ensures GoingOn([])
    ensures GoingOn(a) && GoingOn(b) ==> GoingOn(a + b)
  {
  }

  /** What is awaited stays what it was while everybody goes on. */
  ghost predicate SameWaiters(r: RSys, r': RSys) {
    && r'.futures.Keys == r.futures.Keys
    && forall id | id in r.futures :: r'.futures[id].waiters.Keys == r.futures[id].waiters.Keys
  }

  // ---------- A request ----------

  /** Any thread that is not inside `send` can make a request, of a new command, at any time. */
  lemma RequestBegins(r: RSys, c: seq<Ptr>, eval: nat -> int, p: nat, n: Ptr, id: nat, junk: Ptr)
    requires RInv(r, c, eval)
    ensures var r' := NextR(r, Request(p, n, id, junk), eval);
      if id !in r.used && p !in r.s.ec.sends && n.Node? && n !in r.s.q.mem.heap
      then r'.s.begun == r.s.begun + [Sent(p, Command(id))] && r'.futures == r.futures[id := F.Fresh()]
      else r' == r
  {
    hide Unique, FuturesOk, Inv;
    SysInvParts(r.s, c);
  }

  /** Any thread can begin to wait on any future at any time; that moves nothing else. */
  lemma AwaitBegins(r: RSys, eval: nat -> int, id: nat, w: nat)
    requires id in r.futures && w !in r.futures[id].waiters
    ensures var r' := NextR(r, Await(id, F.BeginWait(w)), eval);
      && r'.s == r.s && id in r'.futures && r'.futures[id].waiters == r.futures[id].waiters[w := F.Lock]
      && forall x | x in r.futures && x != id :: x in r'.futures && r'.futures[x] == r.futures[x]
  {
  }

  // ---------- A call ----------

  /** Steps of one promise as steps of the system. */
  function Lifted(id: nat, more: seq<F.Act>): seq<RAct> {
    seq(|more|, i requires 0 <= i < |more| => if more[i].Set? then Deliver else Await(id, more[i]))
  }

  /** The setter's and the waiters' steps of the promise of the request being called. */
  lemma {:induction false} LiftPromise(r: RSys, id: nat, more: seq<F.Act>, eval: nat -> int)
    requires id in r.futures && FutureProgress.GoingOn(more)
    requires FutureProgress.Waiting(more) || (InRequest(r) && r.s.run.id == id && r.calling)
    ensures GoingOn(Lifted(id, more))
    ensures Then(r, Lifted(id, more), eval)
         == r.(futures := r.futures[id := FutureProgress.Then(r.futures[id], more)])
    decreases |more|
  {
    if more == [] {
      assert r.futures[id := r.futures[id]] == r.futures;
    } else {
      var a := Lifted(id, more)[0];
      assert more[0] in more;
      OneLifted(r, id, more[0], eval);
      var r1 := NextR(r, a, eval);
      LiftPromise(r1, id, more[1..], eval);
      assert Lifted(id, more)[1..] == Lifted(id, more[1..]);
      var f2 := FutureProgress.Then(r1.futures[id], more[1..]);
      assert r1.futures[id := f2] == r.futures[id := f2];
    }
  }

  lemma OneLifted(r: RSys, id: nat, a: F.Act, eval: nat -> int)
    requires id in r.futures && (a.Wait? || (a.Set? && InRequest(r) && r.s.run.id == id && r.calling))
    ensures NextR(r, if a.Set? then Deliver else Await(id, a), eval)
         == r.(futures := r.futures[id := F.Next(r.futures[id], a)])
  {
    if a.Set? && !CanR(r, Deliver) {
      assert r.futures[id := r.futures[id]] == r.futures;
    }
  }

  /** `call` of a request, going on with whoever holds the promise's mutex, comes to its end. */
  lemma CallFinishes(r: RSys, c: seq<Ptr>, eval: nat -> int) returns (more: seq<RAct>)
    requires RInv(r, c, eval) && InRequest(r)
    ensures GoingOn(more)
    ensures var r' := Then(r, more, eval);
      && RInv(r', c, eval) && SameWaiters(r, r') && r'.s == r.s && InRequest(r') && r'.calling
      && r'.futures[r.s.run.id].setter.Finished?
  {
    hide SysInv, Unique, F.Inv, NextR;
    var id := r.s.run.id;
    var first: seq<RAct> := [];
    if !r.calling {
      first := [Deliver];
      CallBegins(r, c, eval);
      assert Then(r, [Deliver], eval) == NextR(r, Deliver, eval) by { assert [Deliver][1..] == []; }
    }
    var r1 := Then(r, first, eval);
    var setting := FutureProgress.SetFinishes(r1.futures[id], eval(id));
    LiftPromise(r1, id, setting, eval);
    more := first + Lifted(id, setting);
    ThenAppend(r, first, Lifted(id, setting), eval);
    RInvThen(r1, c, Lifted(id, setting), eval);
  }

  lemma CallBegins(r: RSys, c: seq<Ptr>, eval: nat -> int)
    requires RInv(r, c, eval) && InRequest(r) && !r.calling
    ensures var r' := NextR(r, Deliver, eval);
      RInv(r', c, eval) && r'.s == r.s && r'.calling && SameWaiters(r, r')
  {
    hide SysInv, Unique, F.Inv;
    CalledOnce(r, c) by { SysInvParts(r.s, c); }
    NotYetSet(r.futures[r.s.run.id], eval(r.s.run.id));
    RInvNext(r, c, Deliver, eval);
  }

  lemma NotYetSet(f: F.Shared, v: int)
    requires F.Inv(f, v) && f.sets == 0
    ensures F.Can(f, F.BeginSet(v)) && F.Next(f, F.BeginSet(v)).waiters == f.waiters
  {
  }

  /** Steps that do not move the queue keep the invariant with the chain as it is. */
  lemma {:induction false} RInvThen(r: RSys, c: seq<Ptr>, more: seq<RAct>, eval: nat -> int)
    requires RInv(r, c, eval) && forall a | a in more :: a.Deliver? || a.Await?
    ensures RInv(Then(r, more, eval), c, eval)
    decreases |more|
  {
    hide RInv, NextR, CanR, Next, NextChain;
    if more != [] {
      assert more[0] in more;
      RInvNext(r, c, more[0], eval);
      RInvThen(NextR(r, more[0], eval), c, more[1..], eval);
    }
  }

  /**
    While a request is being called, either the call itself can go on, or the thread that
    holds the promise's mutex can; no command but a request waits for a promise.
   */
  lemma CallGoesOn(r: RSys, c: seq<Ptr>, eval: nat -> int)
    requires RInv(r, c, eval)
    ensures InRequest(r) ==>
      || CanR(r, Deliver)
      || CanR(r, RAct.Consume)
      || exists w :: CanR(r, Await(r.s.run.id, F.Wait(w))) && F.Can(r.futures[r.s.run.id], F.Wait(w))
    ensures !InRequest(r) ==> (CanR(r, RAct.Consume) <==> Can(r.s, Action.Consume))
  {
    hide SysInv, Unique, F.Inv;
    if InRequest(r) {
      CalledOnce(r, c) by { SysInvParts(r.s, c); }
      var f, v := r.futures[r.s.run.id], eval(r.s.run.id);
      if !r.calling {
        NotYetSet(f, v);
        assert F.Can(f, F.BeginSet(0));
      } else {
        FutureProgress.SetterGoesOn(f, v, F.Set);
        if f.setter.SetLock? && f.owner.Waiter? {
          FutureProgress.HolderGoesOn(f, v, F.Set);
          assert F.Can(f, F.Wait(f.owner.w)) && CanR(r, Await(r.s.run.id, F.Wait(f.owner.w)));
        }
      }
    }
  }

  // ---------- The queue's own continuations ----------

  /** One step of the queue, made after the call in progress, if any, has ended. */
  lemma LiftStep(r: RSys, c: seq<Ptr>, a: Action, eval: nat -> int) returns (more: seq<RAct>, c': seq<Ptr>)
    requires RInv(r, c, eval) && !a.Send?
    ensures GoingOn(more)
    ensures var r' := Then(r, more, eval);
      RInv(r', c', eval) && SameWaiters(r, r') && r'.s == Next(r.s, a)
  {
    hide RInv, Next;
    var first: seq<RAct> := [];
    if a.Consume? && InRequest(r) {
      first := CallFinishes(r, c, eval);
    }
    var r1 := Then(r, first, eval);
    var b := if a.Consume? then RAct.Consume else RAct.Produce(a.p);
    NextQueue(r1, b, eval);
    StepAllowed(r1, a, b);
    RInvNext(r1, c, b, eval);
    c' := ChainR(r1, c, b);
    more := first + [b];
    ThenAppend(r, first, [b], eval);
    assert Then(r1, [b], eval) == NextR(r1, b, eval) by { assert [b][1..] == []; }
  }

  /** An action that is not enabled changes neither. */
  lemma StepAllowed(r: RSys, a: Action, b: RAct)
    requires (a.Produce? && b == RAct.Produce(a.p)) || (a.Consume? && b.Consume?)
    requires a.Consume? && InRequest(r) ==> r.calling && r.futures[r.s.run.id].setter.Finished?
    ensures if CanR(r, b) then QueuePart(b) == Some(a) else Next(r.s, a) == r.s
  {
  }

  lemma {:induction false} Lift(r: RSys, c: seq<Ptr>, queued: seq<Action>, eval: nat -> int)
    returns (more: seq<RAct>, c': seq<Ptr>)
    requires RInv(r, c, eval) && forall a | a in queued :: !a.Send?
    ensures GoingOn(more)
    ensures var r' := Then(r, more, eval);
      RInv(r', c', eval) && SameWaiters(r, r') && r'.s == QueueThen(r.s, queued)
    decreases |queued|
  {
    hide RInv, Next, NextR, GoingOn;
    GoingOnParts([], []);
    if queued == [] {
      more, c' := [], c;
    } else {
      assert queued[0] in queued;
      var first, c1 := LiftStep(r, c, queued[0], eval);
      var rest, c2 := Lift(Then(r, first, eval), c1, queued[1..], eval);
      more, c' := first + rest, c2;
      GoingOnParts(first, rest);
      ThenAppend(r, first, rest, eval);
    }
  }

  // ---------- Every request is answered ----------

  /** Every promise belongs to a command that a producer has begun to send. */
  ghost predicate Asked(r: RSys, id: nat) {
    exists i :: 0 <= i < |r.s.begun| && r.s.begun[i].msg == Command(id)
  }

  lemma AskedNext(r: RSys, a: RAct, eval: nat -> int, id: nat)
    requires id in r.futures ==> Asked(r, id)
    ensures id in NextR(r, a, eval).futures ==> Asked(NextR(r, a, eval), id)
  {
    hide PopStep, PushStep, F.Next;
    var r' := NextR(r, a, eval);
    if id in r.futures {
      var i :| 0 <= i < |r.s.begun| && r.s.begun[i].msg == Command(id);
      assert r'.s.begun[i].msg == Command(id);
    } else if id in r'.futures {
      assert r'.s.begun[|r.s.begun|].msg == Command(id);
    }
  }

  lemma {:induction false} AskedAlways(acts: seq<RAct>, stubSelf: Msg, eval: nat -> int, id: nat)
    ensures var r := Requests.After(acts, stubSelf, eval); id in r.futures ==> Asked(r, id)
  {
    if acts != [] {
      hide NextR, Asked;
      var k := |acts| - 1;
      AskedAlways(acts[..k], stubSelf, eval, id);
      AskedNext(Requests.After(acts[..k], stubSelf, eval), acts[k], eval, id);
    }
  }

  lemma {:induction false} InBy(ss: seq<Sent>, i: nat)
    requires i < |ss|
    ensures ss[i].msg in By(ss, ss[i].from)
  {
    var k := |ss| - 1;
    if i < k {
      InBy(ss[..k], i);
    }
  }

  lemma {:induction false} ByIn(ss: seq<Sent>, p: nat, m: Msg)
    requires m in By(ss, p)
    ensures m in Messages(ss)
  {
    var k := |ss| - 1;
    if m in By(ss[..k], p) {
      ByIn(ss[..k], p, m);
      var i :| 0 <= i < k && Messages(ss[..k])[i] == m;
      assert Messages(ss)[i] == m;
    } else {
      assert Messages(ss)[k] == m;
    }
  }

  /** With everything begun sent and everything sent called, a command that was begun has been called. */
  lemma AskedIsCalled(r: RSys, id: nat)
    requires Asked(r, id) && Messages(r.s.sent) == Commands(r.s.called)
    requires forall p :: By(r.s.sent, p) == By(r.s.begun, p)
    ensures id in r.s.called
  {
    hide By;
    var i :| 0 <= i < |r.s.begun| && r.s.begun[i].msg == Command(id);
    InBy(r.s.begun, i);
    ByIn(r.s.sent, r.s.begun[i].from, Command(id));
    var j :| 0 <= j < |r.s.called| && Commands(r.s.called)[j] == Command(id);
  }

  /** The system can go on until all requests have been called, or a null message has ended `run`. */
  lemma ComesToCalls(acts: seq<RAct>, stubSelf: Msg, eval: nat -> int, id: nat) returns (more: seq<RAct>, c: seq<Ptr>)
    requires id in Requests.After(acts, stubSelf, eval).futures
    ensures GoingOn(more)
    ensures var r := Requests.After(acts, stubSelf, eval);
      var r' := Then(r, more, eval);
      RInv(r', c, eval) && SameWaiters(r, r') && (r'.s.run.Stopped? || id in r'.s.called)
  {
    hide RInv, NextR, Next, Requests.After, MessageQueueSteps.After, GoingOn, By, Asked;
    var r := Requests.After(acts, stubSelf, eval);
    var c0 := RInvAlways(acts, stubSelf, eval);
    ProjectRuns(acts, stubSelf, eval);
    var before := Project(acts, stubSelf, eval);
    var queued := MessageQueueProgress.EverythingHandled(before, stubSelf);
    QueueAfterThen(before, queued, stubSelf);
    more, c := Lift(r, c0, queued, eval);
    var r' := Then(r, more, eval);
    if !r'.s.run.Stopped? {
      AskedAlways(acts, stubSelf, eval, id);
      StillAsked(r, r', id);
      AskedIsCalled(r', id);
    }
  }

  lemma StillAsked(r: RSys, r': RSys, id: nat)
    requires Asked(r, id) && r'.s.begun == r.s.begun
    ensures Asked(r', id)
  {
  }

  /**
    From every reachable state in which a request has been made, all threads going on
    and nothing new being sent, the command is called and every thread that waits on its
    future returns with the command's value, unless a null message ends `run` before.
   */
  lemma EveryRequestIsAnswered(acts: seq<RAct>, stubSelf: Msg, eval: nat -> int, id: nat) returns (more: seq<RAct>)
    requires id in Requests.After(acts, stubSelf, eval).futures
    ensures GoingOn(more)
    ensures var r, r' := Requests.After(acts, stubSelf, eval), Requests.After(acts + more, stubSelf, eval);
      && r'.futures.Keys == r.futures.Keys
      && (r'.s.run.Stopped? ||
          (id in r'.s.called && forall w | w in r.futures[id].waiters ::
             w in r'.futures[id].waiters && r'.futures[id].waiters[w] == F.Got(eval(id))))
  {
    hide SysInv, Unique, NextR, Requests.After, GoingOn, F.Inv;
    var r := Requests.After(acts, stubSelf, eval);
    var calling, c := ComesToCalls(acts, stubSelf, eval, id);
    var r1 := Then(r, calling, eval);
    if r1.s.run.Stopped? {
      more := calling;
    } else {
      var serving := FutureProgress.ServeAll(r1.futures[id], eval(id));
      LiftPromise(r1, id, serving, eval);
      more := calling + Lifted(id, serving);
      GoingOnParts(calling, Lifted(id, serving));
      ThenAppend(r, calling, Lifted(id, serving), eval);
    }
    AfterThen(acts, more, stubSelf, eval);
  }
}
