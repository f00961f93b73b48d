/**
  What `SignaledQueue` promises over every run: signals account for nodes, what stays
  behind when everything is at rest, and when a signal is lost.
 */
module SignaledQueueTheorems {
  import opened MpscMemory
  import opened Fifo
  import opened Sending
  import opened IntMpscSteps
  import opened IntMpscRuns
  import opened SignaledQueueSteps

  /** At every step of every run the signals account for the nodes, and no freed memory is touched. */
  lemma SignalConservation(acts: seq<Action>, stubSelf: Msg)
    ensures var s, c := After(acts, stubSelf), Chain(acts, stubSelf);
      && |Contents(s.q, c)| + |InHand(s)| == s.counter + Left(s) + |Unsignalled(s)| + Nulls(Messages(s.sent)) + s.lost
      && Messages(s.sent) == s.handled + InProgress(s) + Contents(s.q, c)
      && !s.q.mem.fault
  {
    SysInvAlways(acts, stubSelf);
    Facts(After(acts, stubSelf), Chain(acts, stubSelf));
  }

  /**
    What `receive` has handled is what was pushed first, so of each producer's messages it is
    a prefix of what that producer began to push, in its order.
   */
  lemma ProducerOrder(acts: seq<Action>, stubSelf: Msg, p: nat)
    ensures var s := After(acts, stubSelf);
      && |s.handled| <= |s.sent| && s.handled == Messages(s.sent[..|s.handled|])
      && By(s.sent[..|s.handled|], p) <= By(s.sent, p) <= By(s.begun, p)
      && |By(s.begun, p)| <= |By(s.sent, p)| + 1
      && (p !in s.sends ==> By(s.sent, p) == By(s.begun, p))
  {
    var s := After(acts, stubSelf);
    SysInvAlways(acts, stubSelf);
    hide Inv, InOrder, Conserved, KindOk;
    assert |Messages(s.sent)| == |s.sent|;
    assert s.handled == Messages(s.sent)[..|s.handled|] == Messages(s.sent[..|s.handled|]);
    SentInOrder(s.begun, s.sent, s.q.mem, |s.handled|, p);
  }

  /** While a command is called its node is allocated, out of everybody else's reach, and still holds it. */
  lemma CommandAliveWhileCalled(acts: seq<Action>, stubSelf: Msg)
    ensures var s := After(acts, stubSelf);
      s.recv.CallCommand? ==>
        && s.recv.r in s.q.mem.heap && s.recv.r in s.q.out && s.recv.r !in Chain(acts, stubSelf)
        && SelfOf(s.q.mem.heap, s.recv.r) == Command(s.recv.id)
  {
    SysInvAlways(acts, stubSelf);
    hide Inv, After, Chain, Conserved, KindOk, OrderOk;
    Facts(After(acts, stubSelf), Chain(acts, stubSelf));
  }

  /** While `receive` spins on `pop`, there is a node for every iteration it still has to make. */
  lemma SpinHasANode(acts: seq<Action>, stubSelf: Msg)
    requires After(acts, stubSelf).recv.Popping? && InHand(After(acts, stubSelf)) == {}
    ensures var s := After(acts, stubSelf);
      |Contents(s.q, Chain(acts, stubSelf))| >= s.recv.left >= 1
  {
    SysInvAlways(acts, stubSelf);
  }

  /**
    Once in-flight links are written, the next `pop` of the spin loop succeeds: it takes
    the oldest node.
   */
  lemma SpinEnds(acts: seq<Action>, stubSelf: Msg)
    requires After(acts, stubSelf).recv.Popping? && After(acts, stubSelf).q.pop == LoadHead
    requires !ProducerLinking(After(acts, stubSelf).q.mem)
    ensures var s, c := After(acts, stubSelf), Chain(acts, stubSelf);
      var q' := PopAlone(s.q, 10);
      && Contents(s.q, c) != []
      && q'.pop.Done? && q'.pop.result != Null
      && SelfOf(q'.mem.heap, q'.pop.result) == Contents(s.q, c)[0]
  {
    SysInvAlways(acts, stubSelf);
    SpinHasANode(acts, stubSelf);
    hide Linked, PopOk, StubOk;
    UndisturbedPop(After(acts, stubSelf).q, Chain(acts, stubSelf));
  }

  ghost predicate AtRest(s: Sys) {
    s.sends == map[] && s.recv.Outside? && s.counter == 0
  }

  /** Messages after which only null messages come. */
  ghost predicate NullsLast(ms: seq<Msg>) {
    forall i, j | 0 <= i < j < |ms| && ms[i].NullMsg? :: ms[j].NullMsg?
  }

  lemma {:induction false} NullsSplit(xs: seq<Msg>, ys: seq<Msg>)
    ensures Nulls(xs + ys) == Nulls(xs) + Nulls(ys)
    decreases |ys|
  {
    if ys == [] {
      assert xs + ys == xs;
    } else {
      var k := |ys| - 1;
      NullsSplit(xs, ys[..k]);
      assert xs + ys == (xs + ys[..k]) + [ys[k]];
      NullsAppend(xs + ys[..k], ys[k]);
    }
  }

  lemma {:induction false} NullsBound(ms: seq<Msg>)
    ensures Nulls(ms) <= |ms|
    ensures Nulls(ms) == |ms| <==> forall m | m in ms :: m.NullMsg?
    ensures |Ids(ms)| == |ms| - Nulls(ms)
  {
    if ms != [] {
      var k := |ms| - 1;
      NullsBound(ms[..k]);
      assert ms == ms[..k] + [ms[k]];
      IdsAppend(ms[..k], ms[k]);
    }
  }

  lemma {:induction false} NoNulls(ms: seq<Msg>)
    ensures Nulls(ms) == 0 <==> forall i | 0 <= i < |ms| :: ms[i].Command?
  {
    if ms != [] {
      var k := |ms| - 1;
      NoNulls(ms[..k]);
      assert forall i | 0 <= i < k :: ms[..k][i] == ms[i];
    }
  }

  /**
    With as many messages left as null messages and lost signals, every command has been
    handled exactly if no signal was lost and the null messages all came last.
   */
  lemma LeftBehind(handled: seq<Msg>, rest: seq<Msg>, lost: nat)
    requires Nulls(handled + rest) + lost == |rest|
    ensures Ids(handled) == Ids(handled + rest) <==> NullsLast(handled + rest) && lost == 0
  {
    var sent := handled + rest;
    NullsSplit(handled, rest);
    NullsBound(handled);
    NullsBound(rest);
    NullsBound(sent);
    NoNulls(handled);
    if forall m | m in rest :: m.NullMsg? {
      IdsOfNulls(handled, rest);
      assert NullsLast(sent);
    } else {
      assert |Ids(sent)| != |Ids(handled)|;
      if NullsLast(sent) && lost == 0 {
        var i :| 0 <= i < |handled| && !handled[i].Command?;
        assert sent[i].NullMsg?;
        forall m | m in rest ensures m.NullMsg? {
          var j :| 0 <= j < |rest| && rest[j] == m;
          assert sent[|handled| + j] == m;
        }
        assert false;
      }
    }
  }

  /**
    At rest, exactly as many messages are still queued as null messages were ever pushed
    and signals lost: the newest ones.  Every command has been called if and only if no
    signal was lost and no command was sent after a null message.
   */
  lemma NullMessagesStayBehind(acts: seq<Action>, stubSelf: Msg)
    requires AtRest(After(acts, stubSelf))
    ensures var s, c := After(acts, stubSelf), Chain(acts, stubSelf);
      var sent := Messages(s.sent);
      var left := Nulls(sent) + s.lost;
      && left <= |sent|
      && Contents(s.q, c) == sent[|sent| - left..]
      && s.called == Ids(sent[..|sent| - left])
      && (s.called == Ids(sent) <==> NullsLast(sent) && s.lost == 0)
  {
    var s, c := After(acts, stubSelf), Chain(acts, stubSelf);
    SysInvAlways(acts, stubSelf);
    hide QueueOk, KindOk, OrderOk, Contents, NullsLast, Nulls, Ids, After, Chain, Messages;
    assert Unsignalled(s) == {};
    assert Messages(s.sent) == s.handled + Contents(s.q, c);
    LeftBehind(s.handled, Contents(s.q, c), s.lost);
    assert Messages(s.sent)[..|s.handled|] == s.handled;
  }

  // ---------- Lost signals ----------

  /** A step that drops signals: a send on a full counter, or a `receive` that reads more than an `int` holds. */
  predicate Loses(s: Sys, a: Action) {
    || (a.Produce? && Can(s, a) && s.sends[a.p].Signal? && s.counter >= 18446744073709551614)
    || (a.Consume? && Can(s, a) && s.recv.Outside? && s.counter >= 2147483648)
  }

  lemma LostStep(s: Sys, a: Action)
    ensures s.lost <= Next(s, a).lost
    ensures Next(s, a).lost == s.lost <==> !Loses(s, a)
  {
    hide PopStep, PushStep, Rounds;
    RoundsExact(s.counter);
  }

  predicate LosesAt(acts: seq<Action>, stubSelf: Msg, k: nat) {
    k < |acts| && Loses(After(acts[..k], stubSelf), acts[k])
  }

  /** No signal is lost in a run exactly if no step of it drops one. */
  lemma {:induction false} SignalsLost(acts: seq<Action>, stubSelf: Msg)
    ensures After(acts, stubSelf).lost == 0 <==> forall k: nat :: !LosesAt(acts, stubSelf, k)
  {
    if acts != [] {
      hide Next, Loses;
      var n := |acts| - 1;
      SignalsLost(acts[..n], stubSelf);
      LostStep(After(acts[..n], stubSelf), acts[n]);
      forall k: nat ensures LosesAt(acts, stubSelf, k) <==>
        LosesAt(acts[..n], stubSelf, k) || (k == n && Loses(After(acts[..n], stubSelf), acts[n]))
      {
        assert k < n ==> acts[..n][..k] == acts[..k];
      }
      assert LosesAt(acts, stubSelf, n) <==> Loses(After(acts[..n], stubSelf), acts[n]);
    }
  }

  lemma SentGrows(s: Sys, a: Action)
    ensures |s.sent| <= |Next(s, a).sent|
  {
    hide PushStep, PopStep;
  }

  /** The counter, with what was lost before, never exceeds the number of messages sent. */
  lemma CounterBound(acts: seq<Action>, stubSelf: Msg)
    ensures After(acts, stubSelf).counter + After(acts, stubSelf).lost <= |After(acts, stubSelf).sent|
  {
    var s, c := After(acts, stubSelf), Chain(acts, stubSelf);
    SysInvAlways(acts, stubSelf);
    hide Inv, KindOk, OrderOk, After, Chain, Contents;
    assert |Messages(s.sent)| == |s.handled| + |InProgress(s)| + |Contents(s.q, c)|;
    assert |InHand(s)| == |InProgress(s)|;
  }

  /** With fewer than 2^31 messages no signal is lost. */
  lemma {:induction false} FewMessagesLoseNothing(acts: seq<Action>, stubSelf: Msg)
    requires |After(acts, stubSelf).sent| < 2147483648
    ensures After(acts, stubSelf).lost == 0
  {
    if acts != [] {
      hide Next;
      var n := |acts| - 1;
      var s := After(acts[..n], stubSelf);
      SentGrows(s, acts[n]);
      FewMessagesLoseNothing(acts[..n], stubSelf);
      CounterBound(acts[..n], stubSelf);
      LostStep(s, acts[n]);
    }
  }

  lemma {:induction false} IdsOfNulls(xs: seq<Msg>, ys: seq<Msg>)
    requires forall m | m in ys :: m.NullMsg?
    ensures Ids(xs + ys) == Ids(xs)
    decreases |ys|
  {
    if ys == [] {
      assert xs + ys == xs;
    } else {
      var k := |ys| - 1;
      assert xs + ys == (xs + ys[..k]) + [ys[k]];
      assert ys[k] in ys;
      IdsOfNulls(xs, ys[..k]);
      IdsAppend(xs + ys[..k], ys[k]);
    }
  }

  function Repeat(a: Action, n: nat): seq<Action> {
    if n == 0 then [] else Repeat(a, n - 1) + [a]
  }

  lemma AfterAppend(acts: seq<Action>, a: Action, stubSelf: Msg)
    ensures After(acts + [a], stubSelf) == Next(After(acts, stubSelf), a)
  {
  }

  function Times(s: Sys, a: Action, n: nat): Sys {
    if n == 0 then s else Next(Times(s, a, n - 1), a)
  }

  lemma {:induction false} AfterRepeat(acts: seq<Action>, a: Action, n: nat, stubSelf: Msg)
    ensures After(acts + Repeat(a, n), stubSelf) == Times(After(acts, stubSelf), a, n)
  {
    hide Next, After;
    if n == 0 {
      assert acts + Repeat(a, 0) == acts;
    } else {
      AfterRepeat(acts, a, n - 1, stubSelf);
      AfterAppend(acts + Repeat(a, n - 1), a, stubSelf);
      assert acts + Repeat(a, n) == acts + Repeat(a, n - 1) + [a];
    }
  }

  /** A quiet system in which one message after the other has been pushed. */
  function Quiet(heap: map<Ptr, Cell>, tail: Ptr, counter: nat, sent: seq<Sent>): Sys {
    Sys(Queue(Mem(heap, tail, map[], false), Stub, Idle, {}), counter, map[], Outside, sent, sent, [], [], 0)
  }

  /** A null message sent before a command takes the command's signal: the command stays queued. */
  lemma CommandLeftBehind(id: nat, stubSelf: Msg) returns (acts: seq<Action>)
    ensures AtRest(After(acts, stubSelf))
    ensures Messages(After(acts, stubSelf).sent) == [NullMsg, Command(id)] && After(acts, stubSelf).called == []
    ensures Contents(After(acts, stubSelf).q, Chain(acts, stubSelf)) == [Command(id)]
  {
    hide Next, Times, Repeat, OneNull, NullThenCommand, Chain, Contents, AtRest, NullsLast, Ids;
    var a, b, c := Node(1), Node(2), Produce(0);
    var acts1 := [SendNull(0, a, Null)] + Repeat(c, 3);
    var acts2 := acts1 + [Send(0, b, id, Null)];
    acts := acts2 + Repeat(c, 4) + Repeat(Consume, 9);
    AfterAppend([], SendNull(0, a, Null), stubSelf);
    assert [] + [SendNull(0, a, Null)] == [SendNull(0, a, Null)];
    AfterRepeat([SendNull(0, a, Null)], c, 3, stubSelf);
    NullPushed(stubSelf);
    AfterAppend(acts1, Send(0, b, id, Null), stubSelf);
    AfterRepeat(acts2, c, 4, stubSelf);
    CommandPushed(id, stubSelf);
    AfterRepeat(acts2 + Repeat(c, 4), Consume, 9, stubSelf);
    NullTaken(id, stubSelf);
    NullMessagesStayBehind(acts, stubSelf);
    NullsAppend([], NullMsg);
    NullsAppend([NullMsg], Command(id));
    assert [] + [NullMsg] == [NullMsg] && [NullMsg] + [Command(id)] == [NullMsg, Command(id)];
  }

  function OneNull(stubSelf: Msg): Sys {
    Quiet(map[Stub := Cell(Node(1), stubSelf), Node(1) := Cell(Null, NullMsg)], Node(1), 0, [Sent(0, NullMsg)])
  }

  function NullThenCommand(id: nat, stubSelf: Msg): Sys {
    Quiet(map[Stub := Cell(Node(1), stubSelf), Node(1) := Cell(Node(2), NullMsg), Node(2) := Cell(Null, Command(id))],
          Node(2), 1, [Sent(0, NullMsg), Sent(0, Command(id))])
  }

  lemma NullPushed(stubSelf: Msg)
    ensures Times(Next(Start(stubSelf), SendNull(0, Node(1), Null)), Produce(0), 3) == OneNull(stubSelf)
  {
    hide Rounds, AsInt, PopStep, PushStep;
    var s3 := Times(Next(Start(stubSelf), SendNull(0, Node(1), Null)), Produce(0), 2);
    NullExchanged(stubSelf);
    LinkWritten(s3.q.mem, Node(1), Stub);
    assert PushStep(s3.q.mem, Producer(0)).heap == OneNull(stubSelf).q.mem.heap;
    assert Next(s3, Produce(0)).sends == map[];
  }

  lemma NullExchanged(stubSelf: Msg)
    ensures var s := Times(Next(Start(stubSelf), SendNull(0, Node(1), Null)), Produce(0), 2);
      && s == OneNull(stubSelf).(q := s.q, sends := map[0 := Pushing(false)])
      && s.q == OneNull(stubSelf).q.(mem := s.q.mem)
      && s.q.mem == Mem(map[Stub := Cell(Null, stubSelf), Node(1) := Cell(Null, NullMsg)], Node(1),
                        map[Producer(0) := Link(Node(1), Stub)], false)
  {
    hide Rounds, AsInt, PopStep;
    var s1 := Next(Start(stubSelf), SendNull(0, Node(1), Null));
    var s2 := Times(s1, Produce(0), 1);
    assert s2 == Next(Times(s1, Produce(0), 0), Produce(0));
    assert s2.q.mem.pushes == map[Producer(0) := Swap(Node(1))];
    var s3 := Times(s1, Produce(0), 2);
    assert s3.q.mem.pushes == map[Producer(0) := Link(Node(1), Stub)];
    assert s3.sends == map[0 := Pushing(false)] && s3.sent == [Sent(0, NullMsg)];
  }

  lemma CommandPushed(id: nat, stubSelf: Msg)
    ensures Times(Next(OneNull(stubSelf), Send(0, Node(2), id, Null)), Produce(0), 4) == NullThenCommand(id, stubSelf)
  {
    hide Rounds, AsInt, PopStep, PushStep;
    CommandLinked(id, stubSelf);
    var s4 := Times(Next(OneNull(stubSelf), Send(0, Node(2), id, Null)), Produce(0), 3);
    assert Next(s4, Produce(0)).sends == map[];
  }

  lemma CommandLinked(id: nat, stubSelf: Msg)
    ensures Times(Next(OneNull(stubSelf), Send(0, Node(2), id, Null)), Produce(0), 3)
         == NullThenCommand(id, stubSelf).(counter := 0, sends := map[0 := Signal])
  {
    hide Rounds, AsInt, PopStep, PushStep;
    var s3 := Times(Next(OneNull(stubSelf), Send(0, Node(2), id, Null)), Produce(0), 2);
    CommandExchanged(id, stubSelf);
    LinkWritten(s3.q.mem, Node(2), Node(1));
    assert PushStep(s3.q.mem, Producer(0)).heap == NullThenCommand(id, stubSelf).q.mem.heap;
    assert Next(s3, Produce(0)).sends == map[0 := Signal];
  }

  lemma LinkWritten(m: Mem, n: Ptr, prev: Ptr)
    requires m.pushes == map[Producer(0) := Link(n, prev)] && prev in m.heap
    ensures PushStep(m, Producer(0)) == Mem(m.heap[prev := m.heap[prev].(next := n)], m.tail, map[], m.fault)
  {
    assert m.pushes - {Producer(0)} == map[];
  }

  lemma CommandExchanged(id: nat, stubSelf: Msg)
    ensures var s := Times(Next(OneNull(stubSelf), Send(0, Node(2), id, Null)), Produce(0), 2);
      var w := NullThenCommand(id, stubSelf);
      && s == w.(q := s.q, sends := map[0 := Pushing(true)], counter := 0)
      && s.q == w.q.(mem := s.q.mem)
      && s.q.mem == Mem(map[Stub := Cell(Node(1), stubSelf), Node(1) := Cell(Null, NullMsg),
                            Node(2) := Cell(Null, Command(id))],
                        Node(2), map[Producer(0) := Link(Node(2), Node(1))], false)
  {
    hide Rounds, AsInt, PopStep;
    var s1 := Next(OneNull(stubSelf), Send(0, Node(2), id, Null));
    var s2 := Times(s1, Produce(0), 1);
    assert s2 == Next(Times(s1, Produce(0), 0), Produce(0));
    assert s2.q.mem.pushes == map[Producer(0) := Swap(Node(2))];
    var s3 := Times(s1, Produce(0), 2);
    assert s3.q.mem.pushes == map[Producer(0) := Link(Node(2), Node(1))];
    assert s3.sends == map[0 := Pushing(true)] && s3.sent == [Sent(0, NullMsg), Sent(0, Command(id))];
  }

  /** The state of the spin loop when `pop` has returned the null message. */
  function NullInHand(id: nat, stubSelf: Msg): Sys {
    var s := NullThenCommand(id, stubSelf);
    s.(counter := 0, recv := Popping(1), q := s.q.(head := Node(2), pop := Done(Node(1)), out := {Node(1)}))
  }

  lemma NullPopped(id: nat, stubSelf: Msg)
    ensures Times(NullThenCommand(id, stubSelf), Consume, 6) == NullInHand(id, stubSelf)
  {
    var s0 := NullThenCommand(id, stubSelf);
    var s1 := Next(s0, Consume);
    var s2 := Next(s1, Consume);
    var s3 := Next(s2, Consume);
    var s4 := Next(s3, Consume);
    var s5 := Next(s4, Consume);
    assert s5 == s0.(counter := 0, recv := Popping(1), q := s0.q.(head := Node(1), pop := StoreHead(Node(1), Node(2))));
    assert Times(s0, Consume, 2) == s2 by {
      assert Times(s0, Consume, 1) == Next(Times(s0, Consume, 0), Consume);
    }
    assert Times(s0, Consume, 4) == s4 by {
      assert Times(s0, Consume, 3) == Next(Times(s0, Consume, 2), Consume);
    }
    assert Times(s0, Consume, 6) == Next(s5, Consume) by {
      assert Times(s0, Consume, 5) == Next(Times(s0, Consume, 4), Consume);
    }
  }

  lemma NullTaken(id: nat, stubSelf: Msg)
    ensures var s := Times(NullThenCommand(id, stubSelf), Consume, 9);
      AtRest(s) && Messages(s.sent) == [NullMsg, Command(id)] && s.called == [] && s.lost == 0
  {
    NullPopped(id, stubSelf);
    var s0 := NullThenCommand(id, stubSelf);
    var s6 := NullInHand(id, stubSelf);
    var s7 := Next(s6, Consume);
    var s8 := Next(s7, Consume);
    assert s8.recv == DeleteNull(Node(1), 1);
    assert Times(s0, Consume, 9) == Next(s8, Consume) by {
      assert Times(s0, Consume, 7) == Next(Times(s0, Consume, 6), Consume);
      assert Times(s0, Consume, 8) == Next(Times(s0, Consume, 7), Consume);
    }
  }
}
