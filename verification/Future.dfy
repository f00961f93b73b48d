/**
  One promise and its futures step by step: `promise::set_value` with
  `State::set_result` on one side, any number of threads inside `State::wait` on the
  other, over a mutex and a condition variable that may wake spuriously.
 */
module Future {
  import opened Fifo

  datatype WaitPc =
    | Lock       // mutex.lock()
    | Check      // while (!isReady()), holding the mutex
    | Asleep     // inside cond.wait, mutex released
    | Relock     // awake inside cond.wait, taking the mutex again
    | Unlock     // mutex.unlock()
    | Read       // return *result
    | Got(value: int)

  datatype SetPc =
    | NotStarted
    | Fill(value: int)      // storage->set(result)
    | Release               // tmp = storage.release()
    | SetLock(value: int)   // lock_guard
    | Swap(value: int)      // result.swap(res)
    | SetUnlock
    | Broadcast             // cond.notify_all()
    | Finished

  datatype Owner = Nobody | Waiter(w: nat) | Setter

  /** The promise's result object before it is installed. */
  datatype Storage = Gone | Empty | Filled(value: int)

  /** `fault` records a dereference of a null pointer; `sets` counts calls of `set_value` (history). */
  datatype Shared = Shared(owner: Owner, result: Option<int>, storage: Storage, setter: SetPc,
                           waiters: map<nat, WaitPc>, fault: bool, sets: nat)

  function Fresh(): Shared {
    Shared(Nobody, None, Empty, NotStarted, map[], false, 0)
  }

  datatype Act =
    | BeginWait(w: nat)
    | Wait(w: nat)        // the next step of a waiter
    | Spurious(w: nat)    // a sleeper wakes for no reason
    | BeginSet(value: int)
    | Set                 // the next step of the setter

  predicate Can(f: Shared, a: Act) {
    match a
    case BeginWait(w) => w !in f.waiters
    case Wait(w) => w in f.waiters && CanWait(f, w)
    case Spurious(w) => w in f.waiters && f.waiters[w].Asleep?
    case BeginSet(_) => f.setter.NotStarted? || f.setter.Finished?
    case Set => !f.setter.NotStarted? && !f.setter.Finished? && (f.setter.SetLock? ==> f.owner.Nobody?)
  }

  predicate CanWait(f: Shared, w: nat)
    requires w in f.waiters
  {
    match f.waiters[w]
    case Lock => f.owner.Nobody?
    case Relock => f.owner.Nobody?
    case Asleep => false
    case Got(_) => false
    case _ => true
  }

  function WaitStep(f: Shared, w: nat): Shared
    requires Can(f, Wait(w))
  {
    match f.waiters[w]
    case Lock => f.(owner := Waiter(w), waiters := f.waiters[w := Check])
    case Check =>
      if f.result.Some? then f.(waiters := f.waiters[w := Unlock])
      else f.(owner := Nobody, waiters := f.waiters[w := Asleep])
    case Relock => f.(owner := Waiter(w), waiters := f.waiters[w := Check])
    case Unlock => f.(owner := Nobody, waiters := f.waiters[w := Read])
    case Read => if f.result.Some? then f.(waiters := f.waiters[w := Got(f.result.value)]) else f.(fault := true)
  }

  function Wake(waiters: map<nat, WaitPc>): map<nat, WaitPc> {
    map w | w in waiters :: if waiters[w].Asleep? then Relock else waiters[w]
  }

  function SetStep(f: Shared): Shared
    requires Can(f, Set)
  {
    match f.setter
    case Fill(v) => if f.storage.Gone? then f.(fault := true) else f.(storage := Filled(v), setter := Release)
    case Release =>
      if f.storage.Filled? then f.(storage := Gone, setter := SetLock(f.storage.value)) else f.(fault := true)
    case SetLock(v) => f.(owner := Setter, setter := Swap(v))
    case Swap(v) => f.(result := Some(v), setter := SetUnlock)
    case SetUnlock => f.(owner := Nobody, setter := Broadcast)
    case Broadcast => f.(waiters := Wake(f.waiters), setter := Finished)
  }

  function Next(f: Shared, a: Act): Shared {
    if !Can(f, a) then f else
    match a
    case BeginWait(w) => f.(waiters := f.waiters[w := Lock])
    case Wait(w) => WaitStep(f, w)
    case Spurious(w) => f.(waiters := f.waiters[w := Relock])
    case BeginSet(v) => f.(setter := Fill(v), sets := f.sets + 1)
    case Set => SetStep(f)
  }

  function After(acts: seq<Act>): Shared {
    if acts == [] then Fresh() else Next(After(acts[..|acts| - 1]), acts[|acts| - 1])
  }

  // ---------- Invariant under a single set_value ----------

  ghost predicate MutexOk(f: Shared) {
    && (forall w | w in f.waiters :: (f.waiters[w].Check? || f.waiters[w].Unlock?) <==> f.owner == Waiter(w))
    && (f.setter.Swap? || f.setter.SetUnlock? <==> f.owner == Setter)
    && (f.owner.Waiter? ==> f.owner.w in f.waiters)
  }

  /** `v` is the value given to the one call of `set_value`. */
  ghost predicate SetterOk(f: Shared, v: int) {
    && (f.setter.NotStarted? <==> f.sets == 0)
    && f.sets <= 1
    && (f.setter.NotStarted? || f.setter.Fill? <==> f.storage.Empty?)
    && (f.storage.Filled? <==> f.setter.Release?)
    && (f.storage.Filled? ==> f.storage.value == v)
    && (f.setter.Fill? || f.setter.SetLock? || f.setter.Swap? ==> f.setter.value == v)
    && (f.result.Some? <==> f.setter.SetUnlock? || f.setter.Broadcast? || f.setter.Finished?)
    && (f.result.Some? ==> f.result.value == v)
  }

  ghost predicate WaitersOk(f: Shared) {
    forall w | w in f.waiters ::
      && (f.waiters[w].Unlock? || f.waiters[w].Read? ==> f.result.Some?)
      && (f.waiters[w].Got? ==> f.result == Some(f.waiters[w].value))
      && (f.waiters[w].Asleep? ==> !f.setter.Finished?)
  }

  ghost predicate Inv(f: Shared, v: int) {
    !f.fault && MutexOk(f) && SetterOk(f, v) && WaitersOk(f)
  }

  lemma WaitKeeps(f: Shared, w: nat, v: int)
    requires Inv(f, v) && Can(f, Wait(w))
    ensures Inv(WaitStep(f, w), v)
  {
  }

  lemma SetKeeps(f: Shared, v: int)
    requires Inv(f, v) && Can(f, Set)
    ensures Inv(SetStep(f), v)
  {
  }

  /** Every step keeps the invariant of a promise that is set at most once. */
  lemma NextKeeps(f: Shared, a: Act, v: int)
    requires Inv(f, v) && Next(f, a).sets <= 1
    requires a.BeginSet? && Can(f, a) ==> a.value == v
    ensures Inv(Next(f, a), v)
  {
    hide WaitStep, SetStep;
    if Can(f, a) {
      match a
      case Wait(w) => WaitKeeps(f, w, v);
      case Set => SetKeeps(f, v);
      case _ =>
    }
  }

  lemma SetsGrow(f: Shared, a: Act)
    ensures f.sets <= Next(f, a).sets
  {
  }

  /** The value of the first `set_value` of a run. */
  function SetValue(acts: seq<Act>): int {
    if acts == [] then 0
    else
      var k := |acts| - 1;
      var before := After(acts[..k]);
      if acts[k].BeginSet? && Can(before, acts[k]) && before.sets == 0 then acts[k].value else SetValue(acts[..k])
  }

  lemma {:induction false} InvAlways(acts: seq<Act>)
    requires After(acts).sets <= 1
    ensures Inv(After(acts), SetValue(acts))
  {
    if acts != [] {
      var k := |acts| - 1;
      var f := After(acts[..k]);
      SetsGrow(f, acts[k]);
      InvAlways(acts[..k]);
      if f.sets == 0 {
        InvAnyValue(f, SetValue(acts[..k]), SetValue(acts));
      }
      NextKeeps(f, acts[k], SetValue(acts));
    }
  }

  /** Before `set_value` is called its value does not matter. */
  lemma InvAnyValue(f: Shared, v: int, v': int)
    requires Inv(f, v) && f.sets == 0
    ensures Inv(f, v')
  {
  }

  // ---------- Theorems ----------

  /** Once the broadcast is done no waiter sleeps; whoever returned, returned the value that was set. */
  lemma WaitersAreServed(acts: seq<Act>, w: nat)
    requires After(acts).sets <= 1 && w in After(acts).waiters
    ensures var f := After(acts);
      && !f.fault
      && (f.setter.Finished? ==> !f.waiters[w].Asleep?)
      && (f.waiters[w].Read? ==> f.result == Some(SetValue(acts)))
      && (f.waiters[w].Got? ==> f.waiters[w].value == SetValue(acts) && f.result == Some(SetValue(acts)))
  {
    InvAlways(acts);
  }

  /** The installed result never changes. */
  lemma {:induction false} ResultIsFinal(acts: seq<Act>, i: nat)
    requires i <= |acts| && After(acts).sets <= 1 && After(acts[..i]).result.Some?
    ensures After(acts).result == After(acts[..i]).result
  {
    if i == |acts| {
      assert acts[..i] == acts;
    } else {
      var k := |acts| - 1;
      SetsGrow(After(acts[..k]), acts[k]);
      assert acts[..k][..i] == acts[..i];
      ResultIsFinal(acts[..k], i);
      InvAlways(acts[..k]);
    }
  }

  /** After a second call of `set_value` the setter is stuck before the storage it has given away. */
  ghost predicate Misused(f: Shared) {
    f.setter.Fill? && f.storage.Gone? && f.result.Some?
  }

  lemma {:induction false} MisusedAlways(acts: seq<Act>)
    requires After(acts).sets >= 2
    ensures Misused(After(acts))
  {
    var k := |acts| - 1;
    var f := After(acts[..k]);
    if f.sets >= 2 {
      MisusedAlways(acts[..k]);
    } else {
      InvAlways(acts[..k]);
    }
  }

  /** One step faults exactly if it is a step of a setter that is at work a second time. */
  lemma StepFaults(acts: seq<Act>, a: Act)
    ensures Next(After(acts), a).fault <==> After(acts).fault || (a.Set? && After(acts).sets >= 2)
  {
    if After(acts).sets >= 2 {
      MisusedAlways(acts);
    } else {
      InvAlways(acts);
    }
  }

  /** Step `k` of a run is one of a setter at work a second time. */
  predicate SetsAgain(acts: seq<Act>, k: nat) {
    k < |acts| && acts[k].Set? && After(acts[..k]).sets >= 2
  }

  lemma SetsAgainInit(acts: seq<Act>, k: nat)
    requires acts != []
    ensures var n := |acts| - 1;
      SetsAgain(acts, k) <==> SetsAgain(acts[..n], k) || (k == n && acts[n].Set? && After(acts[..n]).sets >= 2)
  {
    hide After;
    var n := |acts| - 1;
    assert k < n ==> acts[..n][..k] == acts[..k];
  }

  /**
    A null pointer is dereferenced in a run exactly when the setter takes a step after a
    second call of `set_value` on the same promise, whose storage is gone.
   */
  lemma {:induction false} SecondSetFaults(acts: seq<Act>)
    ensures After(acts).fault <==> exists k: nat :: SetsAgain(acts, k)
  {
    if acts != [] {
      hide Next, SetsAgain;
      var n := |acts| - 1;
      SecondSetFaults(acts[..n]);
      StepFaults(acts[..n], acts[n]);
      forall k: nat {
        SetsAgainInit(acts, k);
      }
      if After(acts).fault {
        if After(acts[..n]).fault {
          var k: nat :| SetsAgain(acts[..n], k);
          assert SetsAgain(acts, k);
        } else {
          assert SetsAgain(acts, n);
        }
      }
    }
  }

  lemma AfterAppend(acts: seq<Act>, a: Act)
    ensures After(acts + [a]) == Next(After(acts), a)
  {
    assert (acts + [a])[..|acts|] == acts;
  }

  /** One complete `set_value` and the beginning of another. */
  lemma SettingTwiceFaults(v: int, w: int) returns (acts: seq<Act>)
    ensures After(acts).fault && After(acts).sets == 2 && After(acts).result == Some(v)
  {
    var a0: seq<Act> := [];
    var a1 := a0 + [BeginSet(v)];
    var a2, a3, a4 := a1 + [Set], a1 + [Set] + [Set], a1 + [Set] + [Set] + [Set];
    var a5, a6, a7 := a4 + [Set], a4 + [Set] + [Set], a4 + [Set] + [Set] + [Set];
    AfterAppend(a0, BeginSet(v));
    AfterAppend(a1, Set);
    AfterAppend(a2, Set);
    AfterAppend(a3, Set);
    AfterAppend(a4, Set);
    AfterAppend(a5, Set);
    AfterAppend(a6, Set);
    assert After(a7).setter.Finished? && After(a7).storage.Gone?;
    AfterAppend(a7, BeginSet(w));
    AfterAppend(a7 + [BeginSet(w)], Set);
    acts := a7 + [BeginSet(w)] + [Set];
  }

  // ---------- Progress ----------

  function PcRank(pc: WaitPc): nat {
    match pc
    case Asleep => 6
    case Lock => 5
    case Relock => 5
    case Check => 4
    case Unlock => 3
    case Read => 2
    case Got(_) => 1
  }

  /** With the result installed, each step of a waiter brings it closer to returning. */
  lemma WaitProgress(f: Shared, v: int, w: nat)
    requires Inv(f, v) && f.result.Some? && Can(f, Wait(w))
    ensures PcRank(Next(f, Wait(w)).waiters[w]) < PcRank(f.waiters[w])
    ensures forall x | x != w && x in f.waiters :: Next(f, Wait(w)).waiters[x] == f.waiters[x]
  {
  }

  /** After the broadcast, as long as some waiter has not returned, some waiter can move. */
  lemma SomeWaiterMoves(f: Shared, v: int, w: nat)
    requires Inv(f, v) && f.setter.Finished? && w in f.waiters && !f.waiters[w].Got?
    ensures exists x :: x in f.waiters && !f.waiters[x].Got? && Can(f, Wait(x))
  {
  }
}
