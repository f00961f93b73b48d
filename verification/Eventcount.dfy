/**
  `Eventcount`: the wait flag, the semaphore, and where each notifying producer stands.
  What it is wrapped around is a queue to which producers push in three memory steps.
 */
module Eventcount {
  import opened MpscMemory

  /** Where a producer stands inside a pipe's `send`. */
  datatype SendPc =
    | Pushing        // inside queue.push
    | LoadWaiting    // if (waiting.load())
    | ClearWaiting   // waiting.store(false)
    | Post           // sem_post

  /** `out` calls `pop` before the wait (lines 40 and 49) and between prepare and commit (line 43). */
  datatype Site = Outer | Recheck

  datatype Eventcount = Eventcount(waiting: bool, sem: nat, sends: map<nat, SendPc>)

  function PrepareWait(e: Eventcount): Eventcount {
    e.(waiting := true)
  }

  function CancelWait(e: Eventcount): Eventcount {
    e.(waiting := false)
  }

  /** `sem_wait`, which blocks on zero. */
  function CommitWait(e: Eventcount): Eventcount
    requires e.sem > 0
  {
    e.(sem := e.sem - 1)
  }

  /** A producer enters `send`. */
  function Entered(e: Eventcount, p: nat): Eventcount {
    e.(sends := e.sends[p := Pushing])
  }

  /** The next step of producer `p` inside `notify`. */
  function Notify(e: Eventcount, p: nat): Eventcount
    requires p in e.sends && !e.sends[p].Pushing?
  {
    match e.sends[p]
    case LoadWaiting => if e.waiting then e.(sends := e.sends[p := ClearWaiting]) else e.(sends := e.sends - {p})
    case ClearWaiting => e.(waiting := false, sends := e.sends[p := Post])
    case Post => e.(sem := e.sem + 1, sends := e.sends - {p})
  }

  /** A push has been completed: its producer goes on to notify. */
  function Pushed(e: Eventcount, p: nat): Eventcount {
    e.(sends := e.sends[p := LoadWaiting])
  }

  /** Producer `p` has put its message in the queue and not finished notifying. */
  predicate Poster(e: Eventcount, m: Mem, p: nat) {
    p in e.sends && (e.sends[p].Pushing? ==> Linking(m, Producer(p)))
  }

  /** A token is there, or will be posted unless nobody waits. */
  ghost predicate Awake(e: Eventcount, m: Mem) {
    e.sem > 0 || exists p :: Poster(e, m, p)
  }

  /** Some producer has cleared the flag and is about to post. */
  ghost predicate Posting(e: Eventcount) {
    exists p :: p in e.sends && e.sends[p].Post?
  }

  /** The producers on their way to posting. */
  function Posters(e: Eventcount, m: Mem): set<nat> {
    set p | p in e.sends && Poster(e, m, p)
  }

  /**
    The rest of an undisturbed `notify`: if it finds the flag set it clears it and posts one
    token, and if not it does nothing; either way the producer has finished.
   */
  lemma WholeNotify(e: Eventcount, p: nat)
    requires p in e.sends && e.sends[p].LoadWaiting?
    ensures e.waiting ==>
      && p in Notify(e, p).sends && Notify(e, p).sends[p].ClearWaiting?
      && p in Notify(Notify(e, p), p).sends && Notify(Notify(e, p), p).sends[p].Post?
      && Notify(Notify(Notify(e, p), p), p) == Eventcount(false, e.sem + 1, e.sends - {p})
    ensures !e.waiting ==> Notify(e, p) == Eventcount(false, e.sem, e.sends - {p})
  {
    if e.waiting {
      assert Notify(Notify(Notify(e, p), p), p).sends == e.sends - {p};
    }
  }

  /** The steps of a `send` still to come: three memory steps and at most three of `notify`. */
  function SendRank(e: Eventcount, m: Mem, p: nat): nat {
    if p !in e.sends then 0
    else match e.sends[p]
      case Pushing => 3 + PushRank(m, Producer(p))
      case LoadWaiting => 3
      case ClearWaiting => 2
      case Post => 1
  }

  /** Each step of `notify` brings its producer closer to the end and leaves the others where they are. */
  lemma NotifyProgress(e: Eventcount, m: Mem, p: nat)
    requires p in e.sends && !e.sends[p].Pushing?
    ensures SendRank(Notify(e, p), m, p) < SendRank(e, m, p)
    ensures forall x | x != p :: SendRank(Notify(e, p), m, x) == SendRank(e, m, x)
    ensures Notify(e, p).sends.Keys <= e.sends.Keys
  {
  }

  lemma PostingIsAwake(e: Eventcount, m: Mem)
    ensures e.sem > 0 || Posting(e) ==> Awake(e, m)
  {
    if Posting(e) {
      var p :| p in e.sends && e.sends[p].Post?;
      assert Poster(e, m, p);
    }
  }

  /** Whoever notifies posts, unless it sees that nobody waits; the others stay where they are. */
  lemma NotifyKeeps(e: Eventcount, m: Mem, p: nat)
    requires p in e.sends && !e.sends[p].Pushing?
    ensures var e' := Notify(e, p);
      && (Posting(e) ==> Posting(e') || e'.sem > 0)
      && (e.sends[p].ClearWaiting? ==> Posting(e'))
      && (Awake(e, m) ==> Awake(e', m) || (e.sends[p].LoadWaiting? && !e.waiting))
  {
    var e' := Notify(e, p);
    if Posting(e) {
      var x :| x in e.sends && e.sends[x].Post?;
      assert e'.sem > 0 || (x in e'.sends && e'.sends[x].Post?);
    }
    if e.sends[p].ClearWaiting? {
      assert e'.sends[p].Post?;
    }
    if Awake(e, m) && e.sem == 0 {
      var x :| Poster(e, m, x);
      assert x != p ==> Poster(e', m, x);
      assert x == p && p in e'.sends ==> Poster(e', m, p);
    }
  }

  /** A change of the queue that disturbs no finished exchange silences no producer. */
  lemma QueueStepKeeps(e: Eventcount, m: Mem, e': Eventcount, m': Mem)
    requires e'.sem >= e.sem
    requires forall p | Poster(e, m, p) :: Poster(e', m', p)
    requires forall p | p in e.sends && e.sends[p].Post? :: p in e'.sends && e'.sends[p].Post?
    ensures Posting(e) ==> Posting(e')
    ensures Awake(e, m) ==> Awake(e', m')
  {
    if Posting(e) {
      var x :| x in e.sends && e.sends[x].Post?;
      assert x in e'.sends && e'.sends[x].Post?;
    }
    if Awake(e, m) && e.sem == 0 {
      var x :| Poster(e, m, x);
      assert Poster(e', m', x);
    }
  }

  /** Nobody waits, has waited, or is about to wake anybody. */
  ghost predicate Calm(e: Eventcount) {
    !e.waiting && e.sem == 0 && forall p | p in e.sends :: e.sends[p].Pushing? || e.sends[p].LoadWaiting?
  }

  /** While the flag is not set, notifying costs one load and touches the semaphore not at all. */
  lemma NotifyCalm(e: Eventcount, p: nat)
    requires Calm(e) && p in e.sends && !e.sends[p].Pushing?
    ensures Notify(e, p) == e.(sends := e.sends - {p}) && Calm(Notify(e, p))
  {
  }
}
