/**
  What producers begin to send and what they have put in the queue, as history: each
  producer's messages are exchanged in the order in which it began to send them, and what
  it exchanges is what it was given.
 */
module Sending {
  import opened MpscMemory

  datatype Sent = Sent(from: nat, msg: Msg)

  function Messages(sent: seq<Sent>): seq<Msg> {
    seq(|sent|, i requires 0 <= i < |sent| => sent[i].msg)
  }

  lemma MessagesAppend(sent: seq<Sent>, x: Sent)
    ensures Messages(sent + [x]) == Messages(sent) + [x.msg]
  {
  }

  function By(ss: seq<Sent>, p: nat): seq<Msg> {
    if ss == [] then []
    else By(ss[..|ss| - 1], p) + (if ss[|ss| - 1].from == p then [ss[|ss| - 1].msg] else [])
  }

  lemma ByAppend(ss: seq<Sent>, x: Sent, p: nat)
    ensures By(ss + [x], p) == By(ss, p) + (if x.from == p then [x.msg] else [])
  {
  }

  lemma {:induction false} ByPrefix(ss: seq<Sent>, k: nat, p: nat)
    requires k <= |ss|
    ensures By(ss[..k], p) <= By(ss, p)
  {
    if k == |ss| {
      assert ss[..k] == ss;
    } else {
      var last := |ss| - 1;
      ByPrefix(ss[..last], k, p);
      assert ss[..last][..k] == ss[..k];
      assert ss == ss[..last] + [ss[last]];
    }
  }

  /** What producer `p` has begun to send and not yet exchanged. */
  function NotYetSent(m: Mem, p: nat): seq<Msg> {
    var t := Producer(p);
    if t in m.pushes && !m.pushes[t].Link? then [SelfOf(m.heap, m.pushes[t].node)] else []
  }

  /** `sent` lists the messages in exchange order, `begun` in the order their sends began. */
  ghost predicate InOrder(begun: seq<Sent>, sent: seq<Sent>, m: Mem) {
    forall p :: By(begun, p) == By(sent, p) + NotYetSent(m, p)
  }

  /** The nodes that are on their way to the queue are allocated. */
  ghost predicate EnteringAllocated(m: Mem) {
    forall t | t in m.pushes && !m.pushes[t].Link? :: m.pushes[t].node in m.heap
  }

  lemma OrderBegin(begun: seq<Sent>, sent: seq<Sent>, m: Mem, p: nat, n: Ptr, msg: Msg, junk: Ptr)
    requires InOrder(begun, sent, m) && EnteringAllocated(m) && Producer(p) !in m.pushes && n !in m.heap
    ensures InOrder(begun + [Sent(p, msg)], sent, StartPush(Allocate(m, n, msg, junk), Producer(p), n))
  {
    var m' := StartPush(Allocate(m, n, msg, junk), Producer(p), n);
    forall x ensures By(begun + [Sent(p, msg)], x) == By(sent, x) + NotYetSent(m', x) {
      assert By(begun, x) == By(sent, x) + NotYetSent(m, x);
      ByAppend(begun, Sent(p, msg), x);
    }
  }

  /** What has been exchanged after the next step of producer `p`. */
  function SentAfter(sent: seq<Sent>, m: Mem, p: nat): seq<Sent> {
    var t := Producer(p);
    if Exchanges(m, t) then sent + [Sent(p, SelfOf(m.heap, m.pushes[t].node))] else sent
  }

  lemma OrderPush(begun: seq<Sent>, sent: seq<Sent>, m: Mem, p: nat)
    requires InOrder(begun, sent, m) && EnteringAllocated(m) && Producer(p) in m.pushes
    ensures InOrder(begun, SentAfter(sent, m, p), PushStep(m, Producer(p)))
  {
    hide By;
    forall x ensures By(begun, x) == By(SentAfter(sent, m, p), x) + NotYetSent(PushStep(m, Producer(p)), x) {
      assert By(begun, x) == By(sent, x) + NotYetSent(m, x);
      if Exchanges(m, Producer(p)) {
        ByAppend(sent, Sent(p, SelfOf(m.heap, m.pushes[Producer(p)].node)), x);
      }
    }
  }

  lemma OrderFrame(begun: seq<Sent>, sent: seq<Sent>, m: Mem, m': Mem)
    requires InOrder(begun, sent, m)
    requires forall t: Thread | t.Producer? :: t in m'.pushes <==> t in m.pushes
    requires forall t: Thread | t.Producer? && t in m.pushes :: m'.pushes[t] == m.pushes[t]
    requires forall t: Thread | t.Producer? && t in m.pushes && !m.pushes[t].Link? ::
      SelfOf(m'.heap, m.pushes[t].node) == SelfOf(m.heap, m.pushes[t].node)
    ensures InOrder(begun, sent, m')
  {
    forall x ensures By(begun, x) == By(sent, x) + NotYetSent(m', x) {
      assert By(begun, x) == By(sent, x) + NotYetSent(m, x);
    }
  }

  /** Of what was sent, and of what was begun, one producer's part is in the same order. */
  lemma SentInOrder(begun: seq<Sent>, sent: seq<Sent>, m: Mem, k: nat, p: nat)
    requires InOrder(begun, sent, m) && k <= |sent|
    ensures By(sent[..k], p) <= By(sent, p) <= By(begun, p) && |By(begun, p)| <= |By(sent, p)| + 1
    ensures Producer(p) !in m.pushes ==> By(sent, p) == By(begun, p)
  {
    ByPrefix(sent, k, p);
    assert By(begun, p) == By(sent, p) + NotYetSent(m, p);
  }
}
