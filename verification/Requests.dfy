/**
  `MessageQueue::request`: a command that carries a promise.  The thread inside `run`
  executes `RequestCommand::call`, which computes the result and goes through every step
  of `set_value`, while other threads wait on the future.
 */
module Requests {
  import opened MpscMemory
  import opened Eventcount
  import opened Fifo
  import opened Sending
  import opened IntMpscSteps
  import opened MessageQueueSteps
  import F = Future

  /**
    `futures` maps each request to its promise's state, `used` holds the identities of
    all commands made so far, and `calling` says that the current call has begun.
   */
  datatype RSys = RSys(s: Sys, futures: map<nat, F.Shared>, used: set<nat>, calling: bool)

  datatype RAct =
    | Request(p: nat, n: Ptr, id: nat, junk: Ptr)   // request(): command with a promise
    | Plain(p: nat, n: Ptr, msg: Msg, junk: Ptr)    // send() or nullmsg()
    | Produce(p: nat)
    | Consume
    | Deliver                                       // the next step of RequestCommand::call
    | Await(id: nat, a: F.Act)                      // a thread waiting on a future

  function Start(stubSelf: Msg): RSys {
    RSys(MessageQueueSteps.Start(stubSelf), map[], {}, false)
  }

  /** Inside `call` of a request. */
  predicate InRequest(r: RSys) {
    r.s.run.CallCommand? && r.s.run.id in r.futures
  }

  predicate CanR(r: RSys, a: RAct) {
    match a
    case Request(p, n, id, junk) => id !in r.used && Can(r.s, Send(p, n, Command(id), junk))
    case Plain(p, n, msg, junk) => (msg.Command? ==> msg.id !in r.used) && Can(r.s, Send(p, n, msg, junk))
    case Produce(p) => Can(r.s, Action.Produce(p))
    case Consume => Can(r.s, Action.Consume) && (InRequest(r) ==> r.calling && r.futures[r.s.run.id].setter.Finished?)
    case Deliver =>
      InRequest(r) && F.Can(r.futures[r.s.run.id], if r.calling then F.Set else F.BeginSet(0))
    case Await(id, x) => id in r.futures && !x.Set? && !x.BeginSet?
  }

  /** `eval` gives the result each command's function returns. */
  function NextR(r: RSys, a: RAct, eval: nat -> int): RSys {
    if !CanR(r, a) then r else
    match a
    case Request(p, n, id, junk) =>
      r.(s := Next(r.s, Send(p, n, Command(id), junk)), futures := r.futures[id := F.Fresh()], used := r.used + {id})
    case Plain(p, n, msg, junk) =>
      r.(s := Next(r.s, Send(p, n, msg, junk)), used := if msg.Command? then r.used + {msg.id} else r.used)
    case Produce(p) => r.(s := Next(r.s, Action.Produce(p)))
    case Consume => r.(s := Next(r.s, Action.Consume), calling := false)
    case Deliver =>
      var id := r.s.run.id;
      var step := if r.calling then F.Set else F.BeginSet(eval(id));
      r.(futures := r.futures[id := F.Next(r.futures[id], step)], calling := true)
    case Await(id, x) => r.(futures := r.futures[id := F.Next(r.futures[id], x)])
  }

  function After(acts: seq<RAct>, stubSelf: Msg, eval: nat -> int): RSys {
    if acts == [] then Start(stubSelf) else NextR(After(acts[..|acts| - 1], stubSelf, eval), acts[|acts| - 1], eval)
  }

  /** The queue's part of a step. */
  function QueuePart(a: RAct): Option<Action> {
    match a
    case Request(p, n, id, junk) => Some(Send(p, n, Command(id), junk))
    case Plain(p, n, msg, junk) => Some(Send(p, n, msg, junk))
    case Produce(p) => Some(Action.Produce(p))
    case Consume => Some(Action.Consume)
    case _ => None
  }

  /** The run of the queue inside a run with requests. */
  function Project(acts: seq<RAct>, stubSelf: Msg, eval: nat -> int): seq<Action> {
    if acts == [] then []
    else
      var k := |acts| - 1;
      var rest := Project(acts[..k], stubSelf, eval);
      if CanR(After(acts[..k], stubSelf, eval), acts[k]) && QueuePart(acts[k]).Some?
      then rest + [QueuePart(acts[k]).value] else rest
  }

  lemma NextQueue(r: RSys, a: RAct, eval: nat -> int)
    ensures NextR(r, a, eval).s == if CanR(r, a) && QueuePart(a).Some? then Next(r.s, QueuePart(a).value) else r.s
  {
  }

  /** The queue inside a run with requests makes one of its own runs. */
  lemma {:induction false} ProjectRuns(acts: seq<RAct>, stubSelf: Msg, eval: nat -> int)
    ensures After(acts, stubSelf, eval).s == MessageQueueSteps.After(Project(acts, stubSelf, eval), stubSelf)
  {
    if acts != [] {
      hide Next, NextR, CanR, QueuePart;
      var k := |acts| - 1;
      ProjectRuns(acts[..k], stubSelf, eval);
      NextQueue(After(acts[..k], stubSelf, eval), acts[k], eval);
      var rest := Project(acts[..k], stubSelf, eval);
      if CanR(After(acts[..k], stubSelf, eval), acts[k]) && QueuePart(acts[k]).Some? {
        assert (rest + [QueuePart(acts[k]).value])[..|rest|] == rest;
      }
    }
  }

  // ---------- Each command is one command ----------

  /** The message of a push that has not exchanged yet. */
  predicate Unsent(s: Sys, t: Thread, msg: Msg) {
    t.Producer? && t in s.q.mem.pushes && !s.q.mem.pushes[t].Link? &&
      SelfOf(s.q.mem.heap, s.q.mem.pushes[t].node) == msg
  }

  ghost predicate Unique(r: RSys) {
    && (forall i, j | 0 <= i < j < |r.s.sent| && r.s.sent[i].msg.Command? :: r.s.sent[i].msg != r.s.sent[j].msg)
    && (forall i | 0 <= i < |r.s.sent| && r.s.sent[i].msg.Command? :: r.s.sent[i].msg.id in r.used)
    && (forall t, msg | Unsent(r.s, t, msg) && msg.Command? ::
          msg.id in r.used && forall i | 0 <= i < |r.s.sent| :: r.s.sent[i].msg != msg)
    && (forall t, u, msg | Unsent(r.s, t, msg) && Unsent(r.s, u, msg) && msg.Command? :: t == u)
  }

  lemma UnsentSend(s: Sys, c: seq<Ptr>, p: nat, n: Ptr, m: Msg, junk: Ptr, t: Thread, msg: Msg)
    requires QueueOk(s, c) && Can(s, Send(p, n, m, junk))
    ensures Unsent(Next(s, Send(p, n, m, junk)), t, msg) <==> (if t == Producer(p) then msg == m else Unsent(s, t, msg))
  {
    hide Inv;
    Facts(s, c);
  }

  lemma UnsentProduce(s: Sys, c: seq<Ptr>, p: nat, t: Thread, msg: Msg)
    requires QueueOk(s, c) && Can(s, Action.Produce(p))
    ensures Unsent(Next(s, Action.Produce(p)), t, msg) <==>
      Unsent(s, t, msg) && !(t == Producer(p) && s.ec.sends[p].Pushing? && Exchanges(s.q.mem, t))
  {
    hide Inv;
    Facts(s, c);
    if s.ec.sends[p].Pushing? {
      PushSelf(s.q.mem, Producer(p));
    }
  }

  lemma UnsentConsume(s: Sys, c: seq<Ptr>, t: Thread, msg: Msg)
    requires QueueOk(s, c) && Can(s, Action.Consume)
    ensures Unsent(Next(s, Action.Consume), t, msg) <==> Unsent(s, t, msg)
  {
    hide Inv, PopStep;
    Facts(s, c);
    ConsumeHeap(s, c);
  }

  lemma UniqueSend(r: RSys, c: seq<Ptr>, p: nat, n: Ptr, m: Msg, junk: Ptr, r': RSys)
    requires QueueOk(r.s, c) && Unique(r) && Can(r.s, Send(p, n, m, junk))
    requires m.Command? ==> m.id !in r.used
    requires r'.s == Next(r.s, Send(p, n, m, junk)) && r'.used == r.used + if m.Command? then {m.id} else {}
    ensures Unique(r')
  {
    hide QueueOk, Unsent;
    assert r'.s.sent == r.s.sent;
    forall t, msg ensures Unsent(r'.s, t, msg) <==> (if t == Producer(p) then msg == m else Unsent(r.s, t, msg)) {
      UnsentSend(r.s, c, p, n, m, junk, t, msg);
    }
  }

  lemma UniqueProduce(r: RSys, c: seq<Ptr>, p: nat, r': RSys)
    requires QueueOk(r.s, c) && Unique(r) && Can(r.s, Action.Produce(p))
    requires r'.s == Next(r.s, Action.Produce(p)) && r'.used == r.used
    ensures Unique(r')
  {
    hide QueueOk, Unsent, PushStep;
    forall t, msg ensures Unsent(r'.s, t, msg) <==>
      Unsent(r.s, t, msg) && !(t == Producer(p) && r.s.ec.sends[p].Pushing? && Exchanges(r.s.q.mem, t))
    {
      UnsentProduce(r.s, c, p, t, msg);
    }
    if r.s.ec.sends[p].Pushing? && Exchanges(r.s.q.mem, Producer(p)) {
      var m := SelfOf(r.s.q.mem.heap, r.s.q.mem.pushes[Producer(p)].node);
      ExchangingIsUnsent(r.s, p);
      assert r'.s.sent == r.s.sent + [Sent(p, m)];
    } else {
      assert r'.s.sent == r.s.sent;
    }
  }

  lemma ExchangingIsUnsent(s: Sys, p: nat)
    requires Exchanges(s.q.mem, Producer(p))
    ensures Unsent(s, Producer(p), SelfOf(s.q.mem.heap, s.q.mem.pushes[Producer(p)].node))
  {
  }

  lemma UniqueConsume(r: RSys, c: seq<Ptr>, r': RSys)
    requires QueueOk(r.s, c) && Unique(r) && Can(r.s, Action.Consume)
    requires r'.s == Next(r.s, Action.Consume) && r'.used == r.used
    ensures Unique(r')
  {
    hide QueueOk, Unsent, PopStep;
    assert r'.s.sent == r.s.sent;
    forall t, msg ensures Unsent(r'.s, t, msg) <==> Unsent(r.s, t, msg) {
      UnsentConsume(r.s, c, t, msg);
    }
  }

  /** The command being called has not been called before. */
  lemma CalledOnce(r: RSys, c: seq<Ptr>)
    requires DispatchOk(r.s, c) && Unique(r) && r.s.run.CallCommand?
    ensures r.s.run.id !in r.s.called
  {
    var s := r.s;
    var id := s.run.id;
    var all := Commands(s.called) + [Command(id)] + Contents(s.q, c);
    var k := |s.called|;
    assert Messages(s.sent) == all && |s.sent| > k;
    assert Messages(s.sent)[k] == all[k] == Command(id);
    forall i | 0 <= i < k ensures s.called[i] != id {
      assert Messages(s.sent)[i] == all[i] == Command(s.called[i]);
      assert s.sent[i].msg != s.sent[k].msg;
    }
  }

  // ---------- Each promise is set once, by its own command ----------

  /** Commands whose call has begun. */
  predicate CallBegun(r: RSys, id: nat) {
    id in r.s.called || (r.s.run.CallCommand? && r.s.run.id == id && r.calling)
  }

  ghost predicate FuturesOk(r: RSys, eval: nat -> int) {
    && (forall id | id in r.futures :: id in r.used)
    && (forall id | id in r.futures :: F.Inv(r.futures[id], eval(id)))
    && (forall id | id in r.futures :: r.futures[id].sets == if CallBegun(r, id) then 1 else 0)
    && (forall id | id in r.futures && id in r.s.called :: r.futures[id].setter.Finished?)
    && (r.calling ==> InRequest(r))
    && (forall id | id in r.s.called :: id in r.used)
  }

  ghost predicate RInv(r: RSys, c: seq<Ptr>, eval: nat -> int) {
    SysInv(r.s, c) && Unique(r) && FuturesOk(r, eval)
  }

  lemma CallingUsed(r: RSys, c: seq<Ptr>)
    requires DispatchOk(r.s, c) && Unique(r) && r.s.run.CallCommand?
    ensures r.s.run.id in r.used
  {
    var s := r.s;
    var all := Commands(s.called) + [Command(s.run.id)] + Contents(s.q, c);
    assert Messages(s.sent)[|s.called|] == all[|s.called|];
  }

  lemma FuturesSend(r: RSys, c: seq<Ptr>, p: nat, n: Ptr, m: Msg, junk: Ptr, eval: nat -> int, withFuture: bool)
    requires RInv(r, c, eval) && Can(r.s, Send(p, n, m, junk))
    requires (m.Command? ==> m.id !in r.used) && (withFuture ==> m.Command?)
    ensures var r' := r.(s := Next(r.s, Send(p, n, m, junk)),
                         futures := if withFuture then r.futures[m.id := F.Fresh()] else r.futures,
                         used := r.used + if m.Command? then {m.id} else {});
      FuturesOk(r', eval)
  {
    hide SysInv, F.Inv;
    if r.s.run.CallCommand? {
      CallingUsed(r, c) by { SysInvParts(r.s, c); }
    }
    if withFuture {
      FreshInv(eval(m.id));
    }
  }

  lemma FreshInv(v: int)
    ensures F.Inv(F.Fresh(), v)
  {
  }

  lemma SysInvParts(s: Sys, c: seq<Ptr>)
    requires SysInv(s, c)
    ensures QueueOk(s, c) && DispatchOk(s, c)
  {
  }

  lemma FuturesProduce(r: RSys, c: seq<Ptr>, p: nat, eval: nat -> int)
    requires RInv(r, c, eval) && Can(r.s, Action.Produce(p))
    ensures FuturesOk(r.(s := Next(r.s, Action.Produce(p))), eval)
  {
    hide SysInv, F.Inv, Unique;
  }

  lemma FuturesConsume(r: RSys, c: seq<Ptr>, eval: nat -> int)
    requires RInv(r, c, eval) && CanR(r, RAct.Consume)
    ensures FuturesOk(r.(s := Next(r.s, Action.Consume), calling := false), eval)
  {
    hide SysInv, F.Inv, Unique, PopStep, Delete;
    if r.s.run.CallCommand? {
      CallingUsed(r, c) by { SysInvParts(r.s, c); }
    }
  }

  lemma FuturesDeliver(r: RSys, c: seq<Ptr>, eval: nat -> int)
    requires RInv(r, c, eval) && CanR(r, Deliver)
    ensures FuturesOk(NextR(r, Deliver, eval), eval)
  {
    hide SysInv, Unique, F.Inv;
    CalledOnce(r, c) by { SysInvParts(r.s, c); }
    var id := r.s.run.id;
    var f := r.futures[id];
    var a := if r.calling then F.Set else F.BeginSet(eval(id));
    DeliverStep(f, a, eval(id));
  }

  lemma DeliverStep(f: F.Shared, a: F.Act, v: int)
    requires F.Inv(f, v) && (a.Set? || a == F.BeginSet(v))
    requires a.BeginSet? ==> f.sets == 0
    requires a.Set? ==> f.sets == 1
    ensures F.Inv(F.Next(f, a), v)
    ensures F.Next(f, a).sets == 1
  {
    F.NextKeeps(f, a, v);
  }

  lemma FuturesAwait(r: RSys, id: nat, a: F.Act, eval: nat -> int)
    requires FuturesOk(r, eval) && CanR(r, Await(id, a))
    ensures FuturesOk(NextR(r, Await(id, a), eval), eval)
  {
    hide F.Inv;
    AwaitStep(r.futures[id], a, eval(id));
  }

  lemma AwaitStep(f: F.Shared, a: F.Act, v: int)
    requires F.Inv(f, v) && !a.Set? && !a.BeginSet? && f.sets <= 1
    ensures F.Inv(F.Next(f, a), v)
    ensures F.Next(f, a).sets == f.sets && F.Next(f, a).setter == f.setter
  {
    F.NextKeeps(f, a, v);
  }

  function ChainR(r: RSys, c: seq<Ptr>, a: RAct): seq<Ptr> {
    if CanR(r, a) && QueuePart(a).Some? then NextChain(r.s, c, QueuePart(a).value) else c
  }

  lemma RInvNext(r: RSys, c: seq<Ptr>, a: RAct, eval: nat -> int)
    requires RInv(r, c, eval)
    ensures RInv(NextR(r, a, eval), ChainR(r, c, a), eval)
  {
    hide SysInv, Unique, FuturesOk, Next, NextChain, Can;
    if CanR(r, a) {
      SysInvParts(r.s, c);
      if QueuePart(a).Some? {
        SysInvNext(r.s, c, QueuePart(a).value);
      }
      match a
      case Request(p, n, id, junk) =>
        UniqueSend(r, c, p, n, Command(id), junk, NextR(r, a, eval));
        FuturesSend(r, c, p, n, Command(id), junk, eval, true);
      case Plain(p, n, msg, junk) =>
        UniqueSend(r, c, p, n, msg, junk, NextR(r, a, eval));
        FuturesSend(r, c, p, n, msg, junk, eval, false);
        assert r.used + {} == r.used;
      case Produce(p) =>
        UniqueProduce(r, c, p, NextR(r, a, eval));
        FuturesProduce(r, c, p, eval);
      case Consume =>
        UniqueConsume(r, c, NextR(r, a, eval));
        FuturesConsume(r, c, eval);
      case Deliver =>
        FuturesDeliver(r, c, eval);
        UniqueSame(r, NextR(r, a, eval));
      case Await(id, x) =>
        FuturesAwait(r, id, x, eval);
        UniqueSame(r, NextR(r, a, eval));
    }
  }

  lemma UniqueSame(r: RSys, r': RSys)
    requires Unique(r) && r'.s == r.s && r'.used == r.used
    ensures Unique(r')
  {
  }

  lemma {:induction false} RInvAlways(acts: seq<RAct>, stubSelf: Msg, eval: nat -> int) returns (c: seq<Ptr>)
    ensures RInv(After(acts, stubSelf, eval), c, eval)
  {
    if acts == [] {
      SysInvStart(stubSelf);
      c := [Stub];
    } else {
      hide RInv;
      var k := |acts| - 1;
      var c0 := RInvAlways(acts[..k], stubSelf, eval);
      RInvNext(After(acts[..k], stubSelf, eval), c0, acts[k], eval);
      c := ChainR(After(acts[..k], stubSelf, eval), c0, acts[k]);
    }
  }

  /**
    `get` on the future of a request yields the value of that request's own command, which
    has been called; every promise is set at most once, so no promise is ever misused.
   */
  lemma GetYieldsOwnResult(acts: seq<RAct>, stubSelf: Msg, eval: nat -> int, id: nat, w: nat)
    requires id in After(acts, stubSelf, eval).futures
    ensures var r := After(acts, stubSelf, eval);
      var f := r.futures[id];
      && !f.fault && f.sets <= 1
      && (id in r.s.called ==> f.setter.Finished? && f.result == Some(eval(id)))
      && (w in f.waiters && f.waiters[w].Got? ==> f.waiters[w].value == eval(id) && CallBegun(r, id))
      && (w in f.waiters && id in r.s.called ==> !f.waiters[w].Asleep?)
  {
    var c := RInvAlways(acts, stubSelf, eval);
    hide SysInv, Unique;
  }
}
