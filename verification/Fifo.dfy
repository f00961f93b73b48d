/**
  The specification both queues are held to: a first-in first-out sequence of items,
  and what it allows a history of queue events to be.
 */
module Fifo {

  datatype Event<T> = Enq(item: T) | Deq(item: T) | Internal

  datatype Option<+T> = None | Some(value: T)

  ghost predicate Allows<T>(before: seq<T>, e: Event<T>, after: seq<T>) {
    match e
    case Enq(x) => after == before + [x]
    case Deq(x) => before == [x] + after
    case Internal => after == before
  }

  /** The content left by a history that starts from an empty queue, if it is one of a FIFO. */
  function Replay<T(==)>(es: seq<Event<T>>): Option<seq<T>> {
    if es == [] then Some([])
    else
      var k := |es| - 1;
      match Replay(es[..k])
      case None => None
      case Some(q) =>
        match es[k]
        case Enq(x) => Some(q + [x])
        case Deq(x) => if q != [] && q[0] == x then Some(q[1..]) else None
        case Internal => Some(q)
  }

  function Enqueued<T>(es: seq<Event<T>>): seq<T> {
    if es == [] then []
    else Enqueued(es[..|es| - 1]) + (if es[|es| - 1].Enq? then [es[|es| - 1].item] else [])
  }

  function Dequeued<T>(es: seq<Event<T>>): seq<T> {
    if es == [] then []
    else Dequeued(es[..|es| - 1]) + (if es[|es| - 1].Deq? then [es[|es| - 1].item] else [])
  }

  lemma ReplayExtend<T>(es: seq<Event<T>>, before: seq<T>, e: Event<T>, after: seq<T>)
    requires Replay(es) == Some(before) && Allows(before, e, after)
    ensures Replay(es + [e]) == Some(after)
  {
    assert (es + [e])[..|es|] == es;
  }

  /** Nothing is lost, duplicated or reordered: what went in is what came out and what is left. */
  lemma {:induction false} FifoConserves<T>(es: seq<Event<T>>)
    requires Replay(es).Some?
    ensures Enqueued(es) == Dequeued(es) + Replay(es).value
  {
    if es != [] {
      var k := |es| - 1;
      FifoConserves(es[..k]);
    }
  }

  ghost function Elements<T>(s: seq<T>): set<T> {
    set x | x in s
  }

  lemma RemoveOne<T>(a: set<T>, p: T)
    ensures |a| == |a - {p}| + if p in a then 1 else 0
  {
    if p !in a {
      assert a - {p} == a;
    }
  }

  lemma Smaller<T>(a: set<T>, b: set<T>, p: T)
    requires a <= b && p in b && p !in a
    ensures |a| < |b|
  {
    assert a <= b - {p};
    SubsetSize(a, b - {p});
  }

  lemma {:induction false} SubsetSize<T>(a: set<T>, b: set<T>)
    requires a <= b
    ensures |a| <= |b|
  {
    if a != {} {
      var x :| x in a;
      SubsetSize(a - {x}, b - {x});
    }
  }
}
