/**
  Progress of a promise that is set once: the mutex is always freed again, `set_value`
  comes to its end and every waiter returns with the value.
 */
module FutureProgress {
  import opened Fifo
  import opened Future

  // ---------- The mutex ----------

  /** The next step of whoever holds the mutex. */
  function HolderStep(f: Shared): Act
    requires !f.owner.Nobody?
  {
    if f.owner.Setter? then Set else Wait(f.owner.w)
  }

  /** The steps until the holder of the mutex gives it up. */
  function HolderRank(f: Shared): nat {
    match f.owner
    case Nobody => 0
    case Setter => if f.setter.Swap? then 2 else 1
    case Waiter(w) => if w in f.waiters && f.waiters[w].Check? then 2 else 1
  }

  /** Whoever holds the mutex is never blocked and gives it up within two steps of its own, whatever others do. */
  lemma HolderGoesOn(f: Shared, v: int, a: Act)
    requires Inv(f, v) && !f.owner.Nobody? && Next(f, a).sets <= 1
    ensures Can(f, HolderStep(f)) && 1 <= HolderRank(f) <= 2
    ensures HolderRank(Next(f, HolderStep(f))) < HolderRank(f)
    ensures a != HolderStep(f) ==> Next(f, a).owner == f.owner && HolderRank(Next(f, a)) == HolderRank(f)
  {
    if a.BeginWait? && Can(f, a) {
      assert f.owner != Waiter(a.w);
    }
  }

  // ---------- The setter ----------

  function SetRank(pc: SetPc): nat {
    match pc
    case Fill(_) => 6
    case Release => 5
    case SetLock(_) => 4
    case Swap(_) => 3
    case SetUnlock => 2
    case Broadcast => 1
    case _ => 0
  }

  /**
    Inside `set_value` the setter is blocked only while a waiter holds the mutex, each of
    its six steps brings it closer to the end, and nobody else moves it.
   */
  lemma SetterGoesOn(f: Shared, v: int, a: Act)
    requires Inv(f, v) && f.sets == 1
    ensures f.setter.Finished? <==> SetRank(f.setter) == 0
    ensures Can(f, Set) <==> !f.setter.Finished? && !(f.setter.SetLock? && f.owner.Waiter?)
    ensures Can(f, Set) ==> SetRank(Next(f, Set).setter) < SetRank(f.setter) <= 6
    ensures a != Set && !a.BeginSet? ==> Next(f, a).setter == f.setter
  {
  }

  // ---------- A waiter ----------

  /**
    A waiter is blocked only while it sleeps, which it does only before the broadcast, or
    while another thread holds the mutex it wants; or it has returned.
   */
  lemma WaiterGoesOn(f: Shared, v: int, w: nat)
    requires Inv(f, v) && w in f.waiters
    ensures Can(f, Wait(w)) <==>
      || f.waiters[w].Check? || f.waiters[w].Unlock? || f.waiters[w].Read?
      || ((f.waiters[w].Lock? || f.waiters[w].Relock?) && f.owner.Nobody?)
    ensures f.waiters[w].Asleep? ==> !f.setter.Finished?
    ensures f.waiters[w].Check? && f.result.None? ==>
      Next(f, Wait(w)) == f.(owner := Nobody, waiters := f.waiters[w := Asleep])
  {
  }

  /** A sleeper that wakes for no reason before the result is there looks for it and goes back to sleep. */
  lemma SpuriousWakeIsHarmless(f: Shared, w: nat)
    requires w in f.waiters && f.waiters[w].Asleep? && f.owner.Nobody? && f.result.None?
    ensures var f1 := Next(f, Spurious(w));
      f1.waiters[w] == Relock && Next(Next(f1, Wait(w)), Wait(w)) == f
  {
    var f1 := Next(f, Spurious(w));
    var f2 := Next(f1, Wait(w));
    assert Next(f2, Wait(w)).waiters == f.waiters;
  }

  // ---------- Everybody comes to the end ----------

  function Then(f: Shared, more: seq<Act>): Shared
    decreases |more|
  {
    if more == [] then f else Then(Next(f, more[0]), more[1..])
  }

  lemma {:induction false} ThenAppend(f: Shared, a: seq<Act>, b: seq<Act>)
    ensures Then(f, a + b) == Then(Then(f, a), b)
    decreases |a|
  {
    if a == [] {
      assert a + b == b;
    } else {
      ThenAppend(Next(f, a[0]), a[1..], b);
      assert (a + b)[1..] == a[1..] + b;
    }
  }

  lemma {:induction false} AfterThen(acts: seq<Act>, more: seq<Act>)
    ensures After(acts + more) == Then(After(acts), more)
    decreases |more|
  {
    if more == [] {
      assert acts + more == acts;
    } else {
      AfterThen(acts + [more[0]], more[1..]);
      AfterAppend(acts, more[0]);
      assert acts + more == acts + [more[0]] + more[1..];
    }
  }

  /** Steps of the setter and of the waiters; nobody begins anything, and nobody wakes for no reason. */
  ghost predicate GoingOn(more: seq<Act>) {
    forall a | a in more :: a.Wait? || a.Set?
  }

  ghost predicate Waiting(more: seq<Act>) {
    forall a | a in more :: a.Wait?
  }

  /** What such a step leaves as it was. */
  lemma GoesOn(f: Shared, v: int, a: Act)
    requires Inv(f, v) && f.sets == 1 && (a.Wait? || a.Set?)
    ensures Inv(Next(f, a), v) && Next(f, a).sets == 1 && Next(f, a).waiters.Keys == f.waiters.Keys
  {
    NextKeeps(f, a, v);
  }

  /** Once `set_value` has been called it can come to its end, whatever the waiters are doing. */
  lemma {:induction false} SetFinishes(f: Shared, v: int) returns (more: seq<Act>)
    requires Inv(f, v) && f.sets == 1
    ensures GoingOn(more)
    ensures var f' := Then(f, more);
      Inv(f', v) && f'.sets == 1 && f'.waiters.Keys == f.waiters.Keys && f'.setter.Finished?
    decreases SetRank(f.setter), HolderRank(f)
  {
    hide Next, Inv;
    SetterGoesOn(f, v, Set);
    if f.setter.Finished? {
      more := [];
    } else {
      var a := if Can(f, Set) then Set else Wait(f.owner.w);
      SetterGoesOn(f, v, a);
      GoesOn(f, v, a);
      if a != Set {
        HolderGoesOn(f, v, a);
      }
      var rest := SetFinishes(Next(f, a), v);
      more := [a] + rest;
    }
  }

  /** After the broadcast, a waiter that need not wait for the mutex comes to its end. */
  lemma {:induction false} ServeOne(f: Shared, v: int, w: nat) returns (more: seq<Act>)
    requires Inv(f, v) && f.sets == 1 && f.setter.Finished? && w in f.waiters
    requires f.owner == Nobody || f.owner == Waiter(w)
    ensures Waiting(more)
    ensures var f' := Then(f, more);
      && Inv(f', v) && f'.sets == 1 && f'.setter.Finished? && f'.waiters.Keys == f.waiters.Keys
      && f'.owner == Nobody && f'.waiters[w].Got?
      && forall x | x in f.waiters && x != w :: f'.waiters[x] == f.waiters[x]
    decreases PcRank(f.waiters[w])
  {
    if f.waiters[w].Got? {
      more := [];
    } else {
      WaitProgress(f, v, w);
      GoesOn(f, v, Wait(w));
      var rest := ServeOne(Next(f, Wait(w)), v, w);
      more := [Wait(w)] + rest;
    }
  }

  function Unserved(f: Shared): set<nat> {
    set w | w in f.waiters && !f.waiters[w].Got?
  }

  /** After the broadcast every waiter returns, the waiters going on by themselves. */
  lemma {:induction false} ServeAll(f: Shared, v: int) returns (more: seq<Act>)
    requires Inv(f, v) && f.sets == 1 && f.setter.Finished?
    ensures Waiting(more)
    ensures var f' := Then(f, more);
      && Inv(f', v) && f'.sets == 1 && f'.setter.Finished? && f'.owner.Nobody?
      && f'.waiters.Keys == f.waiters.Keys && forall w | w in f.waiters :: f'.waiters[w] == Got(v)
    decreases |Unserved(f)|
  {
    hide Next;
    HolderUnserved(f, v);
    if Unserved(f) == {} {
      more := [];
      forall w | w in f.waiters ensures f.waiters[w] == Got(v) {
        assert w !in Unserved(f);
      }
    } else {
      var w :| w in Unserved(f) && (f.owner.Waiter? ==> f.owner.w == w);
      var one := ServeOne(f, v, w);
      assert Unserved(Then(f, one)) == Unserved(f) - {w};
      var rest := ServeAll(Then(f, one), v);
      more := one + rest;
      ThenAppend(f, one, rest);
    }
  }

  /** After the broadcast only a waiter that has not returned can hold the mutex. */
  lemma HolderUnserved(f: Shared, v: int)
    requires Inv(f, v) && f.setter.Finished?
    ensures f.owner.Nobody? || (f.owner.Waiter? && f.owner.w in Unserved(f))
  {
  }

  /**
    From every state in which `set_value` has been called once, the threads going on,
    `set_value` finishes and every waiter returns with the value that was set.
   */
  lemma EverybodyReturns(acts: seq<Act>) returns (more: seq<Act>)
    requires After(acts).sets == 1
    ensures GoingOn(more)
    ensures var f, f' := After(acts), After(acts + more);
      && f'.setter.Finished? && !f'.fault && f'.owner.Nobody? && f'.waiters.Keys == f.waiters.Keys
      && forall w | w in f.waiters :: f'.waiters[w] == Got(SetValue(acts))
  {
    hide After, SetValue, Next;
    InvAlways(acts);
    var setting := SetFinishes(After(acts), SetValue(acts));
    var serving := ServeAll(Then(After(acts), setting), SetValue(acts));
    more := setting + serving;
    ThenAppend(After(acts), setting, serving);
    AfterThen(acts, more);
  }
}
