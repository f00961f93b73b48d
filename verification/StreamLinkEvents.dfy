/**
  What single events do to a link, in numbers, and which actions of a run decide its state.
 */
module StreamLinkEvents {
  import opened ByteOrder
  import opened StreamLink

  // ---------- One event ----------

  /** EINTR and EAGAIN, which is also EWOULDBLOCK. */
  predicate TryAgain(errno: int) {
    errno == 4 || errno == 11
  }

  /** The writing half of such an event. */
  function Sends(v: View, sent: Sent): View
    requires Possible(sent, |v.pending|)
  {
    match sent
    case Took(n) =>
      if n < |v.pending| then v.(accepted := v.accepted + v.pending[..n], pending := v.pending[n..])
      else v.(accepted := v.accepted + v.pending, pending := [], completions := v.completions + 1, armed := false)
    case Failed(e) => if TryAgain(e) then v else v.(state := WRITE_ERROR, errno := e, armed := false)
  }

  /**
    An event on a link that waits to write, with callbacks that do nothing.  A read that
    brings bytes or has to be tried again lets the same event send: what the socket takes is
    accepted, the watcher stays armed while bytes are left, and a send that has to be tried
    again changes nothing.  Any other answer of the socket ends the link's work, and only a
    failed send does so without disposing of it.
   */
  lemma QuietEvent(acts: seq<Act>, received: Received, sent: Sent)
    requires Runs(acts) && Live(After(acts)) && Possible(sent, |After(acts).pending|)
    ensures var v, more := After(acts), acts + [Event(received, [], sent, [])];
      && v.pending != [] && Runs(more)
      && After(more) == (
        match received
        case Got(n) =>
          if n == 0 then v.(state := DISCONNECT, active := false, disposals := v.disposals + 1) else Sends(v, sent)
        case ReadFailed(e) =>
          if TryAgain(e) then Sends(v, sent)
          else v.(state := READ_ERROR, errno := e, active := false, disposals := v.disposals + 1))
  {
    InvAlways(acts);
    Extend(acts, Event(received, [], sent, []));
  }

  /** A link that is stopped sends nothing more until it is started again. */
  lemma StopSilences(acts: seq<Act>)
    requires Runs(acts)
    ensures Runs(acts + [Call(Stop)]) && !CanSendMore(acts + [Call(Stop)])
    ensures After(acts + [Call(Stop)]) == After(acts).(active := false)
  {
    Extend(acts, Call(Stop));
    SendsMoreIfLive(acts + [Call(Stop)]);
  }

  /** Starting an OK link lets it send exactly if bytes are pending. */
  lemma StartArms(acts: seq<Act>)
    requires Runs(acts) && After(acts).state == OK
    ensures Runs(acts + [Call(Start)]) && (CanSendMore(acts + [Call(Start)]) <==> After(acts).pending != [])
    ensures After(acts + [Call(Start)]).pending == After(acts).pending
  {
    Extend(acts, Call(Start));
    SendsMoreIfLive(acts + [Call(Start)]);
  }

  // ---------- Which actions disconnect ----------

  /** An event that comes to its sending half: the link is OK, and neither the read nor its callback ends that. */
  predicate ReachesSend(v: View, act: Act) {
    act.Event? && v.state == OK && act.received != Got(0) && !ReadFatal(act) && Disconnect !in act.onRead
  }

  /** Its send takes all that is pending by then, so that the other callback is called. */
  predicate SendsAll(v: View, act: Act) {
    ReachesSend(v, act) && act.sent == Took(|v.pending| + |Bytes(act.onRead)|)
  }

  /** A read that finds the connection closed, or the application disconnecting an OK link. */
  predicate Disconnects(v: View, act: Act) {
    match act
    case Call(app) => app.Disconnect? && v.state == OK
    case Event(received, onRead, _, onWritten) =>
      || received == Got(0)
      || (v.state == OK && !ReadFatal(act) && Disconnect in onRead)
      || (SendsAll(v, act) && Disconnect in onWritten)
  }

  ghost predicate DisconnectsAt(acts: seq<Act>, i: nat) {
    i < |acts| && Runs(acts[..i]) && Disconnects(After(acts[..i]), acts[i])
  }

  lemma {:induction false} CallbackState(v: View, apps: seq<App>)
    ensures AppliedAll(v, apps).state == if v.state == OK && Disconnect in apps then DISCONNECT else v.state
  {
    if apps != [] {
      var k := |apps| - 1;
      CallbackState(v, apps[..k]);
      assert apps == apps[..k] + [apps[k]];
    }
  }

  /** The state in which an event comes to its sending half. */
  lemma ReadState(v: View, act: Act)
    requires act.Event?
    ensures AtWrite(v, act).state == (
      if act.received == Got(0) then DISCONNECT
      else if ReadFatal(act) then READ_ERROR
      else if v.state == OK && Disconnect in act.onRead then DISCONNECT
      else v.state)
  {
    CallbackState(Noted(v, act.received), act.onRead);
  }

  /** The state in which an OK link's attempt to send leaves it. */
  lemma WriteState(v: View, sent: Sent, onWritten: seq<App>)
    requires v.state == OK && v.pending != [] && Possible(sent, |v.pending|)
    ensures AfterWrite(v, sent, onWritten).state == (
      if sent.Failed? then (if Transient(sent.errno) then OK else WRITE_ERROR)
      else if sent.n == |v.pending| && Disconnect in onWritten then DISCONNECT
      else OK)
  {
    hide AppliedAll;
    CallbackState(Attempted(v, sent), onWritten);
  }

  /** One action's contribution to the state. */
  lemma StepDisconnects(v: View, act: Act)
    requires Inv(v) && Allowed(v, act)
    ensures Next(v, act).state == DISCONNECT <==> (v.state == DISCONNECT || Disconnects(v, act)) && !ReadFatal(act)
  {
    hide AtWrite, AfterWrite, Attempted, Bytes, Transient;
    if act.Event? {
      var w := AtWrite(v, act);
      ReadState(v, act);
      ReadFacts(v, act);
      if w.state == OK {
        SomethingPending(v, act);
        WriteState(w, act.sent, act.onWritten);
        EndFacts(AfterWrite(w, act.sent, act.onWritten));
      } else {
        EndFacts(w);
      }
    }
  }

  /** The disconnections of a run are those of its beginning and of its last action. */
  lemma DisconnectAt(acts: seq<Act>)
    requires Runs(acts) && acts != [] && Runs(Init(acts))
    ensures forall i: nat :: DisconnectsAt(acts, i) <==>
      DisconnectsAt(Init(acts), i) || (i == |acts| - 1 && Disconnects(After(Init(acts)), Last(acts)))
  {
    hide Disconnects, Runs, After;
    var n := |acts| - 1;
    forall i: nat ensures i < n ==> Init(acts)[..i] == acts[..i] && Init(acts)[i] == acts[i] {
      if i < n {
        assert Init(acts)[..i] == acts[..i];
      }
    }
    assert acts[..n] == Init(acts);
  }

  /**
    A link is in DISCONNECT exactly when a read has found the connection closed or the
    application has disconnected it while it was OK, and no read has failed otherwise than
    to be tried again.
   */
  lemma {:induction false} DisconnectedExactly(acts: seq<Act>)
    requires Runs(acts)
    ensures After(acts).state == DISCONNECT <==>
      (exists i: nat :: DisconnectsAt(acts, i)) && !(exists i: nat :: ReadFatalAt(acts, i))
  {
    ErrorIsTheFailure(acts);
    if acts != [] {
      hide Next, Allowed, Disconnects, ReadFatal, Runs, After;
      RunsInit(acts);
      DisconnectedExactly(Init(acts));
      ErrorIsTheFailure(Init(acts));
      InvAlways(Init(acts));
      StepDisconnects(After(Init(acts)), Last(acts));
      StepFails(After(Init(acts)), Last(acts));
      DisconnectAt(acts);
      FailureAt(acts);
      if Disconnects(After(Init(acts)), Last(acts)) {
        assert DisconnectsAt(acts, |acts| - 1);
      }
    } else {
      RunsStart();
    }
  }
}
