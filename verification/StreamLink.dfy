/**
  The sending half of `StreamLink` inside its event loop: `write`, `start`, `onEvent` and
  `processWrite`, over a socket that may take part of the bytes, or fail.  Of the reading
  half only what it does to the state of the link is modelled.
 */
module StreamLink {
  import opened ByteOrder
  import opened StreamBuffer

  /** errno values of Linux. */
  const EINTR: int := 4
  const EAGAIN: int := 11
  const EWOULDBLOCK: int := 11

  predicate Transient(errno: int) {
    errno == EAGAIN || errno == EWOULDBLOCK || errno == EINTR
  }

  datatype State = OK | DISCONNECT | READ_ERROR | WRITE_ERROR

  /** What `send` returns: how many bytes the socket took, or -1 with errno. */
  datatype Sent = Took(n: nat) | Failed(errno: int)

  /** What `readv` returns. */
  datatype Received = Got(n: nat) | ReadFailed(errno: int)

  const SIZE_MAX: nat := 0xFFFF_FFFF_FFFF_FFFF

  /** `send` never takes more than it is offered, and its result fits a 64-bit `ssize_t`. */
  predicate Possible(sent: Sent, offered: nat) {
    sent.Took? ==> sent.n <= offered && sent.n <= SIZE_MAX / 2
  }

  /** The `ssize_t` result as `bufferedSend` returns it, a `size_t`. */
  function AsSize(sent: Sent): nat {
    match sent
    case Took(n) => n
    case Failed(_) => SIZE_MAX
  }

  /** What the application may do to a link, from outside or from one of its callbacks. */
  datatype App = Write(bytes: seq<Byte>) | Disconnect | Start | Stop

  /**
    A call from outside, or an event with what the socket answers and what the two
    callbacks do if they are called.
   */
  datatype Act =
    | Call(app: App)
    | Event(received: Received, onRead: seq<App>, sent: Sent, onWritten: seq<App>)

  // ---------- What should happen to a link ----------

  /** `active` and `armed` are the watcher's: it is started, and for a non-empty set of events. */
  datatype View = View(accepted: seq<Byte>, pending: seq<Byte>, state: State, errno: int, completions: nat,
                       active: bool, armed: bool, disposals: nat)

  const INITIAL: View := View([], [], OK, 0, 0, false, false, 0)

  /** `prepareEvents` returns false: the link is to be disposed of. */
  predicate Finished(v: View) {
    v.state == DISCONNECT || v.state == READ_ERROR
  }

  /** Only writing is ever waited for, and only while there is something to write. */
  function Prepared(v: View): View {
    if Finished(v) then v else v.(armed := v.state == OK && v.pending != [])
  }

  function Applied(v: View, app: App): View {
    match app
    case Write(bytes) => v.(pending := v.pending + bytes)
    case Disconnect => if v.state == OK then v.(state := DISCONNECT) else v
    case Start => if Finished(v) then v else Prepared(v).(active := true)
    case Stop => v.(active := false)
  }

  function AppliedAll(v: View, apps: seq<App>): View {
    if apps == [] then v else Applied(AppliedAll(v, apps[..|apps| - 1]), apps[|apps| - 1])
  }

  /** The outcome of a read, before the callback. */
  function Noted(v: View, received: Received): View {
    match received
    case Got(n) => if n == 0 then v.(state := DISCONNECT) else v
    case ReadFailed(errno) => if Transient(errno) then v else v.(state := READ_ERROR, errno := errno)
  }

  /** Bytes received earlier may still be waiting, so any result but 0 can lead to the callback. */
  function AfterRead(v: View, received: Received, onRead: seq<App>): View {
    if received == Got(0) then Noted(v, received) else AppliedAll(Noted(v, received), onRead)
  }

  /** One attempt to send everything that is pending. */
  function Attempted(v: View, sent: Sent): View
    requires Possible(sent, |v.pending|)
  {
    match sent
    case Took(n) =>
      v.(accepted := v.accepted + v.pending[..n], pending := v.pending[n..],
         completions := v.completions + if 0 < n == |v.pending| then 1 else 0)
    case Failed(errno) =>
      v.(state := if Transient(errno) then v.state else WRITE_ERROR,
         errno := if Transient(errno) then v.errno else errno,
         completions := v.completions + if v.pending == [] then 1 else 0)
  }

  function AfterWrite(v: View, sent: Sent, onWritten: seq<App>): View
    requires Possible(sent, |v.pending|)
  {
    var w := Attempted(v, sent);
    if w.completions > v.completions then AppliedAll(w, onWritten) else w
  }

  /** The end of an event: the watcher is armed again, or the link is disposed of. */
  function Ended(v: View): View {
    if Finished(v) then v.(active := false, disposals := v.disposals + 1) else Prepared(v)
  }

  /** The state in which an event comes to the writing half. */
  function AtWrite(v: View, act: Act): View
    requires act.Event?
  {
    AfterRead(v, act.received, act.onRead)
  }

  /** An event is delivered only while the watcher is started and armed. */
  predicate Allowed(v: View, act: Act) {
    act.Event? ==>
      && v.active && v.armed
      && (AtWrite(v, act).state == OK ==> Possible(act.sent, |AtWrite(v, act).pending|))
  }

  function Next(v: View, act: Act): View
    requires Allowed(v, act)
  {
    match act
    case Call(app) => Applied(v, app)
    case Event(_, _, sent, onWritten) =>
      var w := AtWrite(v, act);
      Ended(if w.state == OK then AfterWrite(w, sent, onWritten) else w)
  }

  function Init(acts: seq<Act>): seq<Act>
    requires acts != []
  {
    acts[..|acts| - 1]
  }

  function Last(acts: seq<Act>): Act
    requires acts != []
  {
    acts[|acts| - 1]
  }

  ghost predicate Runs(acts: seq<Act>)
    decreases |acts|, 0
  {
    acts == [] || (Runs(Init(acts)) && Allowed(After(Init(acts)), Last(acts)))
  }

  ghost function After(acts: seq<Act>): View
    requires Runs(acts)
    decreases |acts|, 1
  {
    if acts == [] then INITIAL else Next(After(Init(acts)), Last(acts))
  }

  lemma RunsInit(acts: seq<Act>)
    requires Runs(acts) && acts != []
    ensures Runs(Init(acts)) && Allowed(After(Init(acts)), Last(acts))
    ensures After(acts) == Next(After(Init(acts)), Last(acts))
  {
  }

  lemma RunsStart()
    ensures Runs([]) && After([]) == INITIAL
  {
  }

  // ---------- The link ----------

  class Link {
    const out: Buffer
    var state: State
    var savedErrno: int
    var active: bool
    var armed: bool
    ghost var accepted: seq<Byte>
    ghost var completions: nat
    ghost var disposals: nat

    ghost predicate Valid()
      reads this, out
    {
      out.Valid()
    }

    ghost function Abs(): View
      requires Valid()
      reads this, out, out.data
    {
      View(accepted, out.Content(), state, savedErrno, completions, active, armed, disposals)
    }

    constructor ()
      ensures Valid() && fresh(out) && fresh(out.data) && Abs() == INITIAL
      ensures state == OK && savedErrno == 0 && !active && !armed
      ensures out.Content() == [] && out.data.Length == 2048
    {
      out := new Buffer(DEFAULT_SIZE);
      state, savedErrno, active, armed := OK, 0, false, false;
      accepted, completions, disposals := [], 0, 0;
    }

    method Write(bytes: seq<Byte>)
      requires Valid()
      modifies out, out.data
      ensures Valid() && (out.data == old(out.data) || fresh(out.data))
      ensures Abs() == Applied(old(Abs()), App.Write(bytes))
    {
      out.Append(bytes);
    }

    method MakeDisconnect()
      requires Valid()
      modifies `state
      ensures Valid() && Abs() == Applied(old(Abs()), Disconnect)
    {
      if state == OK {
        state := DISCONNECT;
      }
    }

    /** Reading is armed only in a state that is both OK and WRITE_ERROR, so never, whatever `isReceiving` says. */
    method PrepareEvents() returns (alive: bool)
      requires Valid()
      modifies `armed
      ensures Valid() && Abs() == Prepared(old(Abs())) && (alive <==> !Finished(old(Abs())))
    {
      if state == DISCONNECT || state == READ_ERROR {
        return false;
      }
      var events := false;
      if state == OK && state == WRITE_ERROR {
        events := true;
      }
      var pending := out.Pending();
      if pending != 0 && state == OK {
        events := true;
      }
      armed := events;
      return true;
    }

    method Start()
      requires Valid()
      modifies `active, `armed
      ensures Valid() && Abs() == Applied(old(Abs()), App.Start)
    {
      var alive := PrepareEvents();
      if alive {
        active := true;
      }
    }

    method Stop()
      requires Valid()
      modifies `active
      ensures Valid() && Abs() == Applied(old(Abs()), App.Stop)
    {
      active := false;
    }

    method Apply(app: App)
      requires Valid()
      modifies this, out, out.data
      ensures Valid() && (out.data == old(out.data) || fresh(out.data))
      ensures Abs() == Applied(old(Abs()), app)
    {
      hide Applied;
      match app
      case Write(bytes) => Write(bytes);
      case Disconnect => MakeDisconnect();
      case Start => Start();
      case Stop => Stop();
    }

    /** A callback. */
    method ApplyAll(apps: seq<App>)
      requires Valid()
      modifies this, out, out.data
      ensures Valid() && (out.data == old(out.data) || fresh(out.data))
      ensures Abs() == AppliedAll(old(Abs()), apps)
    {
      hide Applied;
      var i := 0;
      while i < |apps|
        invariant 0 <= i <= |apps|
        invariant Valid() && (out.data == old(out.data) || fresh(out.data))
        invariant Abs() == AppliedAll(old(Abs()), apps[..i])
      {
        assert apps[..i + 1][..i] == apps[..i];
        Apply(apps[i]);
        i := i + 1;
      }
      assert apps[..i] == apps;
    }

    method ProcessRead(received: Received, onRead: seq<App>)
      requires Valid()
      modifies this, out, out.data
      ensures Valid() && (out.data == old(out.data) || fresh(out.data))
      ensures Abs() == AfterRead(old(Abs()), received, onRead)
    {
      hide AppliedAll;
      if received.ReadFailed? && !Transient(received.errno) {
        state := READ_ERROR;
        savedErrno := received.errno;
      }
      if received == Got(0) {
        state := DISCONNECT;
      }
      assert Abs() == Noted(old(Abs()), received);
      if received != Got(0) {
        ApplyAll(onRead);
      }
    }

    /** `sent` is what the socket answers when it is offered all that is pending. */
    method BufferedSend(sent: Sent) returns (got: nat)
      requires Valid() && Possible(sent, |out.Content()|)
      modifies `accepted, out`r
      ensures Valid() && got == AsSize(sent)
      ensures sent.Took? ==>
        accepted == old(accepted + out.Content()[..sent.n]) && out.Content() == old(out.Content())[sent.n..]
      ensures sent.Failed? ==> accepted == old(accepted) && out.Content() == old(out.Content())
    {
      if sent.Took? && sent.n > 0 {
        accepted := accepted + out.Content()[..sent.n];
        out.Processed(sent.n);
      }
      got := AsSize(sent);
    }

    /** The error test of `processWrite`. */
    method NoteFailure(got: nat, sent: Sent)
      requires Valid() && Possible(sent, got) && got == AsSize(sent)
      modifies `state, `savedErrno
      ensures Valid()
      ensures var fatal := sent.Failed? && !Transient(sent.errno);
        && state == (if fatal then WRITE_ERROR else old(state))
        && savedErrno == if fatal then sent.errno else old(savedErrno)
    {
      if got == SIZE_MAX && !Transient(sent.errno) {
        state := WRITE_ERROR;
        savedErrno := sent.errno;
      }
    }

    /** The completion test of `processWrite`. */
    method ResetIfDrained(got: nat) returns (completed: bool)
      requires Valid()
      modifies `completions, out`r, out`w
      ensures Valid() && (completed <==> got > 0 && old(out.Content()) == [])
      ensures out.Content() == old(out.Content()) && (completed ==> out.w == 0)
      ensures completions == old(completions) + if completed then 1 else 0
    {
      hide Buffer.Content, Buffer.Valid;
      var left := out.Pending();
      completed := got > 0 && left == 0;
      if completed {
        out.Reset();
        completions := completions + 1;
      }
    }

    /** `processWrite` up to the callback. */
    method Attempt(sent: Sent) returns (completed: bool)
      requires Valid() && Possible(sent, |out.Content()|)
      modifies this, out
      ensures Valid() && out.data == old(out.data)
      ensures Abs() == Attempted(old(Abs()), sent)
      ensures completed <==> Abs().completions > old(Abs()).completions
    {
      hide Buffer.Content, Buffer.Valid, Attempted, Transient;
      ghost var before := Abs();
      var got := BufferedSend(sent);
      NoteFailure(got, sent);
      completed := ResetIfDrained(got);
      AttemptedIs(before, sent, Abs());
    }

    method ProcessWrite(sent: Sent, onWritten: seq<App>)
      requires Valid() && Possible(sent, |out.Content()|)
      modifies this, out, out.data
      ensures Valid() && (out.data == old(out.data) || fresh(out.data))
      ensures Abs() == AfterWrite(old(Abs()), sent, onWritten)
    {
      hide AppliedAll, Attempted, Possible, Buffer.Content, Buffer.Valid;
      var completed := Attempt(sent);
      if completed {
        ApplyAll(onWritten);
      }
    }

    /** `onEvent`: reads, then writes if the link is still OK, then arms the watcher or disposes of the link. */
    method OnEvent(received: Received, onRead: seq<App>, sent: Sent, onWritten: seq<App>)
      requires Valid() && Allowed(Abs(), Event(received, onRead, sent, onWritten))
      modifies this, out, out.data
      ensures Valid() && (out.data == old(out.data) || fresh(out.data))
      ensures Abs() == Next(old(Abs()), Event(received, onRead, sent, onWritten))
    {
      hide AfterRead, AfterWrite, Buffer.Content;
      ProcessRead(received, onRead);
      if state == OK {
        ProcessWrite(sent, onWritten);
      }
      var alive := PrepareEvents();
      if !alive {
        active := false;
        disposals := disposals + 1;
      }
    }
  }

  /** The parts of an attempt, put together. */
  lemma AttemptedIs(v: View, sent: Sent, w: View)
    requires Possible(sent, |v.pending|)
    requires sent.Took? ==> w.accepted == v.accepted + v.pending[..sent.n] && w.pending == v.pending[sent.n..]
    requires sent.Failed? ==> w.accepted == v.accepted && w.pending == v.pending
    requires var fatal := sent.Failed? && !Transient(sent.errno);
      && w.state == (if fatal then WRITE_ERROR else v.state) && w.errno == if fatal then sent.errno else v.errno
    requires w.completions == v.completions + if AsSize(sent) > 0 && w.pending == [] then 1 else 0
    requires w.active == v.active && w.armed == v.armed && w.disposals == v.disposals
    ensures w == Attempted(v, sent)
  {
  }

  /**
    A new link driven through any run ends in the state the run prescribes, with every written byte
    accepted or pending.
   */
  method Drive(acts: seq<Act>) returns (link: Link)
    requires Runs(acts)
    ensures link.Valid() && link.Abs() == After(acts)
    ensures link.accepted + link.out.Content() == Wrote(acts)
  {
    hide Next, Wrote, Allowed;
    link := new Link();
    var i := 0;
    Prefix(acts, 0);
    while i < |acts|
      invariant 0 <= i <= |acts|
      invariant fresh(link) && fresh(link.out) && fresh(link.out.data) && link.Valid()
      invariant Runs(acts[..i]) && link.Abs() == After(acts[..i])
    {
      Prefix(acts, i + 1);
      assert Init(acts[..i + 1]) == acts[..i];
      RunsInit(acts[..i + 1]);
      match acts[i] {
        case Call(app) =>
          link.Apply(app);
          NextCall(After(acts[..i]), app);
        case Event(received, onRead, sent, onWritten) =>
          link.OnEvent(received, onRead, sent, onWritten);
      }
      i := i + 1;
    }
    assert acts[..i] == acts;
    Conservation(acts);
  }

  lemma NextCall(v: View, app: App)
    ensures Allowed(v, Call(app)) && Next(v, Call(app)) == Applied(v, app)
  {
  }

  lemma {:induction false} Prefix(acts: seq<Act>, i: nat)
    requires Runs(acts) && i <= |acts|
    ensures Runs(acts[..i])
  {
    if i < |acts| {
      RunsInit(acts);
      Prefix(Init(acts), i);
      assert Init(acts)[..i] == acts[..i];
    } else {
      assert acts[..i] == acts;
    }
  }

  // ---------- Bytes ----------

  function Bytes(apps: seq<App>): seq<Byte> {
    if apps == [] then []
    else Bytes(apps[..|apps| - 1]) + if apps[|apps| - 1].Write? then apps[|apps| - 1].bytes else []
  }

  /** What an event's reading callback writes. */
  function ReadWrites(act: Act): seq<Byte>
    requires act.Event?
  {
    if act.received == Got(0) then [] else Bytes(act.onRead)
  }

  /** The attempt of an event calls `onWriteCompleted`. */
  predicate Completes(v: View, act: Act)
    requires Allowed(v, act)
  {
    && act.Event? && AtWrite(v, act).state == OK
    && Attempted(AtWrite(v, act), act.sent).completions > AtWrite(v, act).completions
  }

  function WrittenBy(v: View, act: Act): seq<Byte>
    requires Allowed(v, act)
  {
    match act
    case Call(app) => if app.Write? then app.bytes else []
    case Event(_, _, _, onWritten) => ReadWrites(act) + if Completes(v, act) then Bytes(onWritten) else []
  }

  /** Everything the application has written, from outside or from a callback. */
  ghost function Wrote(acts: seq<Act>): seq<Byte>
    requires Runs(acts)
  {
    if acts == [] then [] else Wrote(Init(acts)) + WrittenBy(After(Init(acts)), Last(acts))
  }

  /** A callback adds the bytes it writes; it may stop an OK link and cannot revive another. */
  lemma {:induction false} Callback(v: View, apps: seq<App>)
    ensures var w := AppliedAll(v, apps);
      && w.pending == v.pending + Bytes(apps) && w.accepted == v.accepted
      && w.errno == v.errno && w.completions == v.completions && w.disposals == v.disposals
      && (w.state == v.state || (v.state == OK && w.state == DISCONNECT))
  {
    if apps != [] {
      Callback(v, apps[..|apps| - 1]);
    }
  }

  /** What reading does: the bytes its callback writes become pending, and nothing is sent. */
  lemma ReadFacts(v: View, act: Act)
    requires act.Event?
    ensures var w := AtWrite(v, act);
      && w.pending == v.pending + ReadWrites(act) && w.accepted == v.accepted
      && w.completions == v.completions && w.disposals == v.disposals
      && (w.state == OK ==> v.state == OK && w.errno == v.errno)
      && (ReadFatal(act) ==> w.state == READ_ERROR && w.errno == act.received.errno)
      && (!ReadFatal(act) ==> w.errno == v.errno && (w.state == v.state || w.state == DISCONNECT))
  {
    Callback(Noted(v, act.received), act.onRead);
  }

  /** An attempt moves bytes from the pending to the accepted ones, in order. */
  lemma AttemptMoves(v: View, sent: Sent)
    requires Possible(sent, |v.pending|)
    ensures var a := Attempted(v, sent);
      a.accepted + a.pending == v.accepted + v.pending && v.accepted <= a.accepted
  {
    if sent.Took? {
      assert v.pending == v.pending[..sent.n] + v.pending[sent.n..];
      assert (v.accepted + v.pending[..sent.n]) + v.pending[sent.n..] == v.accepted + v.pending;
    }
  }

  /** What writing does to an OK link. */
  lemma WriteFacts(v: View, sent: Sent, onWritten: seq<App>)
    requires v.state == OK && Possible(sent, |v.pending|)
    ensures var a, w := Attempted(v, sent), AfterWrite(v, sent, onWritten);
      && w.accepted == a.accepted && w.errno == a.errno && w.completions == a.completions && w.disposals == v.disposals
      && w.pending == a.pending + (if a.completions > v.completions then Bytes(onWritten) else [])
      && (a.state == WRITE_ERROR ==> w.state == WRITE_ERROR)
      && (a.state == OK ==> w.state == OK || w.state == DISCONNECT)
      && (a.state == WRITE_ERROR <==> sent.Failed? && !Transient(sent.errno))
      && (a.state != WRITE_ERROR ==> a.state == OK && a.errno == v.errno)
      && (a.state == WRITE_ERROR ==> a.errno == sent.errno)
  {
    hide AppliedAll, Bytes, Transient;
    Callback(Attempted(v, sent), onWritten);
  }

  /** The end of an event touches neither bytes nor errors. */
  lemma EndFacts(v: View)
    ensures var w := Ended(v);
      w.accepted == v.accepted && w.pending == v.pending && w.state == v.state && w.errno == v.errno
      && w.completions == v.completions
  {
  }

  /** One event: see `StepConserves`. */
  lemma EventConserves(v: View, act: Act)
    requires act.Event? && Allowed(v, act)
    ensures Next(v, act).accepted + Next(v, act).pending == v.accepted + v.pending + WrittenBy(v, act)
    ensures v.accepted <= Next(v, act).accepted
  {
    hide AtWrite, AfterWrite, Attempted, Possible, Bytes, ReadWrites, Ended;
    var w := AtWrite(v, act);
    ReadFacts(v, act);
    if w.state == OK {
      var a, b := Attempted(w, act.sent), if Completes(v, act) then Bytes(act.onWritten) else [];
      WriteFacts(w, act.sent, act.onWritten);
      AttemptMoves(w, act.sent);
      EndFacts(AfterWrite(w, act.sent, act.onWritten));
      Regroup(v.accepted, v.pending, ReadWrites(act), a.accepted, a.pending, b);
    } else {
      EndFacts(w);
      Regroup(v.accepted, v.pending, ReadWrites(act), w.accepted, w.pending, []);
    }
  }

  /** One action: what has been accepted, followed by what is pending, grows by what the application writes. */
  lemma StepConserves(v: View, act: Act)
    requires Allowed(v, act)
    ensures Next(v, act).accepted + Next(v, act).pending == v.accepted + v.pending + WrittenBy(v, act)
    ensures v.accepted <= Next(v, act).accepted
  {
    hide AtWrite;
    if act.Event? {
      EventConserves(v, act);
    }
  }

  lemma Regroup(a: seq<Byte>, p: seq<Byte>, r: seq<Byte>, a': seq<Byte>, p': seq<Byte>, q: seq<Byte>)
    requires a' + p' == a + (p + r)
    ensures a' + (p' + q) == a + p + (r + q)
  {
    assert a' + (p' + q) == (a' + p') + q;
    assert (a + (p + r)) + q == a + p + (r + q);
  }

  /**
    What the socket has taken, followed by what is pending, is what was written: nothing is lost,
    repeated or reordered.
   */
  lemma {:induction false} Conservation(acts: seq<Act>)
    requires Runs(acts)
    ensures After(acts).accepted + After(acts).pending == Wrote(acts)
  {
    if acts != [] {
      hide Next, Allowed, WrittenBy;
      RunsInit(acts);
      Conservation(Init(acts));
      StepConserves(After(Init(acts)), Last(acts));
    }
  }

  // ---------- The life of a link ----------

  ghost predicate Inv(v: View) {
    && (v.armed && v.state == OK ==> v.pending != [])
    && (v.state == WRITE_ERROR ==> !v.armed)
    && (v.state == READ_ERROR ==> !v.active)
    && (v.disposals > 0 ==> !v.active && Finished(v))
    && v.disposals <= 1
  }

  /** An event that reaches the writing half finds something to write. */
  lemma SomethingPending(v: View, act: Act)
    requires Inv(v) && Allowed(v, act) && act.Event? && AtWrite(v, act).state == OK
    ensures AtWrite(v, act).pending != []
  {
    hide AtWrite, ReadWrites;
    ReadFacts(v, act);
  }

  lemma StepKeeps(v: View, act: Act)
    requires Inv(v) && Allowed(v, act)
    ensures Inv(Next(v, act))
  {
    hide AtWrite, AfterWrite, Attempted, ReadWrites;
    if act.Event? {
      var w := AtWrite(v, act);
      ReadFacts(v, act);
      if w.state == OK {
        WriteFacts(w, act.sent, act.onWritten);
      }
    }
  }

  lemma {:induction false} InvAlways(acts: seq<Act>)
    requires Runs(acts)
    ensures Inv(After(acts))
  {
    if acts != [] {
      hide Next, Allowed;
      RunsInit(acts);
      InvAlways(Init(acts));
      StepKeeps(After(Init(acts)), Last(acts));
    }
  }

  /** A failed read, and a failed send that was attempted. */
  predicate ReadFatal(act: Act) {
    act.Event? && act.received.ReadFailed? && !Transient(act.received.errno)
  }

  predicate WriteFatal(v: View, act: Act) {
    act.Event? && AtWrite(v, act).state == OK && act.sent.Failed? && !Transient(act.sent.errno)
  }

  /** One action on a link that is no longer OK. */
  lemma StepAfterwards(v: View, act: Act)
    requires Inv(v) && Allowed(v, act) && v.state != OK
    ensures var w := Next(v, act);
      && w.state != OK && w.accepted == v.accepted && w.completions == v.completions && v.pending <= w.pending
      && (v.state != DISCONNECT ==> w.state == v.state && w.errno == v.errno && w.disposals == v.disposals)
  {
    hide AtWrite, ReadWrites;
    if act.Event? {
      ReadFacts(v, act);
    }
  }

  /**
    A link never becomes OK again, and once it is not, nothing more is sent, no write is
    reported as completed and what is written to it stays pending.  An error and its
    errno are final; a disconnected link may still run into a read error.
   */
  lemma {:induction false} StopsForGood(acts: seq<Act>, i: nat)
    requires Runs(acts) && i <= |acts|
    ensures Runs(acts[..i])
    ensures After(acts[..i]).accepted <= After(acts).accepted
    ensures var v, w := After(acts[..i]), After(acts);
      v.state != OK ==>
        && w.state != OK && w.accepted == v.accepted && w.completions == v.completions && v.pending <= w.pending
        && (v.state != DISCONNECT ==> w.state == v.state && w.errno == v.errno && w.disposals == v.disposals)
  {
    if i < |acts| {
      hide Next, Allowed;
      RunsInit(acts);
      StopsForGood(Init(acts), i);
      assert Init(acts)[..i] == acts[..i];
      InvAlways(Init(acts));
      StepConserves(After(Init(acts)), Last(acts));
      if After(Init(acts)).state != OK {
        StepAfterwards(After(Init(acts)), Last(acts));
      }
    } else {
      assert acts[..i] == acts;
    }
  }

  /** A link is disposed of at most once, and afterwards gets no event. */
  lemma DisposedOnce(acts: seq<Act>, act: Act)
    requires Runs(acts)
    ensures After(acts).disposals <= 1
    ensures After(acts).disposals == 1 ==> Finished(After(acts)) && (Allowed(After(acts), act) ==> act.Call?)
  {
    InvAlways(acts);
  }

  ghost predicate ReadFatalAt(acts: seq<Act>, i: nat) {
    i < |acts| && ReadFatal(acts[i])
  }

  ghost predicate WriteFatalAt(acts: seq<Act>, i: nat) {
    i < |acts| && Runs(acts[..i]) && WriteFatal(After(acts[..i]), acts[i])
  }

  /** One action's contribution to the error state. */
  lemma StepFails(v: View, act: Act)
    requires Inv(v) && Allowed(v, act)
    ensures var w := Next(v, act);
      && (w.state == READ_ERROR <==> v.state == READ_ERROR || ReadFatal(act))
      && (w.state == WRITE_ERROR <==> v.state == WRITE_ERROR || WriteFatal(v, act))
      && (ReadFatal(act) ==> w.errno == act.received.errno)
      && (WriteFatal(v, act) ==> w.errno == act.sent.errno)
      && (ReadFatal(act) || WriteFatal(v, act) ==> v.state != READ_ERROR && v.state != WRITE_ERROR)
      && (!ReadFatal(act) && !WriteFatal(v, act) ==> w.errno == v.errno)
  {
    hide AtWrite, AfterWrite, ReadWrites;
    if act.Event? {
      var w := AtWrite(v, act);
      ReadFacts(v, act);
      if w.state == OK {
        WriteFacts(w, act.sent, act.onWritten);
      }
    }
  }

  /**
    A link is in READ_ERROR exactly when some read failed other than transiently, in
    WRITE_ERROR exactly when such a send was attempted, and keeps that failure's errno:
    there is only one in any run.
   */
  lemma {:induction false} ErrorIsTheFailure(acts: seq<Act>)
    requires Runs(acts)
    ensures After(acts).state == READ_ERROR <==> exists i: nat :: ReadFatalAt(acts, i)
    ensures After(acts).state == WRITE_ERROR <==> exists i: nat :: WriteFatalAt(acts, i)
    ensures forall i: nat :: ReadFatalAt(acts, i) ==> After(acts).errno == acts[i].received.errno
    ensures forall i: nat :: WriteFatalAt(acts, i) ==> After(acts).errno == acts[i].sent.errno
  {
    if acts != [] {
      hide Next, Allowed, ReadFatal, WriteFatal, Runs, After;
      var n := |acts| - 1;
      RunsInit(acts);
      ErrorIsTheFailure(Init(acts));
      InvAlways(Init(acts));
      StepFails(After(Init(acts)), Last(acts));
      FailureAt(acts);
      if ReadFatal(Last(acts)) {
        assert ReadFatalAt(acts, n);
      }
      if WriteFatal(After(Init(acts)), Last(acts)) {
        assert WriteFatalAt(acts, n);
      }
    } else {
      RunsStart();
    }
  }

  /** The failures of a run are those of its beginning and of its last action. */
  lemma FailureAt(acts: seq<Act>)
    requires Runs(acts) && acts != [] && Runs(Init(acts))
    ensures var n := |acts| - 1;
      && (forall i: nat :: ReadFatalAt(acts, i) <==> ReadFatalAt(Init(acts), i) || (i == n && ReadFatal(Last(acts))))
      && (forall i: nat :: WriteFatalAt(acts, i) <==>
            WriteFatalAt(Init(acts), i) || (i == n && WriteFatal(After(Init(acts)), Last(acts))))
  {
    hide ReadFatal, WriteFatal, Runs, After;
    var n := |acts| - 1;
    forall i: nat ensures i < n ==> Init(acts)[..i] == acts[..i] && Init(acts)[i] == acts[i] {
      if i < n {
        assert Init(acts)[..i] == acts[..i];
      }
    }
    assert acts[..n] == Init(acts);
  }

  // ---------- Completed writes ----------

  /**
    `processWrite` on its own compares the -1 of a failed send as a `size_t`: it calls
    `onWriteCompleted` for an attempt that sends the last pending byte, but also for one
    that fails while nothing is pending, and reports a write that was not made exactly then.
   */
  lemma AttemptReports(v: View, sent: Sent)
    requires Possible(sent, |v.pending|)
    ensures var w := Attempted(v, sent);
      && (w.completions > v.completions <==> if v.pending == [] then sent.Failed? else sent == Took(|v.pending|))
      && (w.completions > v.completions && w.accepted == v.accepted <==> v.pending == [] && sent.Failed?)
  {
    if v.pending != [] && sent == Took(|v.pending|) {
      assert |Attempted(v, sent).accepted| == |v.accepted| + |v.pending|;
    }
  }

  /**
    In the event loop this cannot happen: an attempt is made only with bytes pending.  So
    `onWriteCompleted` is called exactly when an attempt takes all of them, and at that
    moment everything written so far has been accepted.
   */
  lemma CompletionsAreHonest(acts: seq<Act>, act: Act)
    requires Runs(acts) && Allowed(After(acts), act)
    ensures Completes(After(acts), act) <==>
      && act.Event? && AtWrite(After(acts), act).state == OK
      && act.sent == Took(|AtWrite(After(acts), act).pending|)
    ensures Completes(After(acts), act) ==>
      && AtWrite(After(acts), act).pending != []
      && Attempted(AtWrite(After(acts), act), act.sent).accepted == Wrote(acts) + ReadWrites(act)
      && Attempted(AtWrite(After(acts), act), act.sent).pending == []
  {
    hide Runs, After, AtWrite, ReadWrites, Wrote;
    InvAlways(acts);
    Conservation(acts);
    if act.Event? && AtWrite(After(acts), act).state == OK {
      SomethingPending(After(acts), act);
      AttemptReports(AtWrite(After(acts), act), act.sent);
      ReadFacts(After(acts), act);
    }
  }

  // ---------- Whether anything more is sent ----------

  /** The watcher is started and waiting to write. */
  predicate Live(v: View) {
    v.active && v.armed && v.state == OK
  }

  predicate IsStart(act: Act) {
    act.Call? && act.app.Start?
  }

  lemma StepStuck(v: View, act: Act)
    requires Inv(v) && Allowed(v, act) && !Live(v) && !IsStart(act)
    ensures !Live(Next(v, act)) && Next(v, act).accepted == v.accepted
  {
    if act.Event? {
      StepAfterwards(v, act);
    }
  }

  lemma {:induction false} StaysStuck(acts: seq<Act>, more: seq<Act>)
    requires Runs(acts + more) && Runs(acts) && !Live(After(acts))
    requires forall act | act in more :: !IsStart(act)
    ensures !Live(After(acts + more)) && After(acts + more).accepted == After(acts).accepted
  {
    if more == [] {
      assert acts + more == acts;
    } else {
      hide Next, Allowed, Live, Runs, After;
      var k := |more| - 1;
      assert Init(acts + more) == acts + more[..k] && Last(acts + more) == more[k];
      RunsInit(acts + more);
      StaysStuck(acts, more[..k]);
      InvAlways(acts + more[..k]);
      assert more[k] in more;
      StepStuck(After(acts + more[..k]), more[k]);
    }
  }

  /** Without another call of `start`, some continuation gets a byte accepted. */
  ghost predicate CanSendMore(acts: seq<Act>)
    requires Runs(acts)
  {
    exists more: seq<Act> :: Progresses(acts, more)
  }

  ghost predicate Progresses(acts: seq<Act>, more: seq<Act>)
    requires Runs(acts)
  {
    && Runs(acts + more) && (forall act | act in more :: !IsStart(act))
    && After(acts + more).accepted != After(acts).accepted
  }

  /** Anything more can be sent exactly while the watcher is started and armed and the link is OK. */
  lemma SendsMoreIfLive(acts: seq<Act>)
    requires Runs(acts)
    ensures CanSendMore(acts) <==> Live(After(acts))
  {
    if Live(After(acts)) {
      var act := Event(Got(1), [], Took(1), []);
      InvAlways(acts);
      TakesOne(After(acts));
      assert Init(acts + [act]) == acts && Last(acts + [act]) == act;
      assert Runs(acts + [act]) && After(acts + [act]) == Next(After(acts), act);
      assert Progresses(acts, [act]);
    }
    if CanSendMore(acts) && !Live(After(acts)) {
      var more: seq<Act> :| Progresses(acts, more);
      StaysStuck(acts, more);
      assert false;
    }
  }

  lemma TakesOne(v: View)
    requires Inv(v) && Live(v)
    ensures Allowed(v, Event(Got(1), [], Took(1), []))
    ensures Next(v, Event(Got(1), [], Took(1), [])).accepted != v.accepted
  {
    var w := AtWrite(v, Event(Got(1), [], Took(1), []));
    assert w == v;
    assert |Attempted(w, Took(1)).accepted| == |v.accepted| + 1;
    WriteFacts(w, Took(1), []);
  }

  /**
    `write` does not arm the watcher: on an OK link with nothing pending, started or not, the
    bytes stay where they are until `start` is called again.
   */
  lemma WriteToIdleLink(acts: seq<Act>, bytes: seq<Byte>)
    requires Runs(acts) && After(acts).state == OK && After(acts).pending == []
    ensures Runs(acts + [Call(Write(bytes))]) && !CanSendMore(acts + [Call(Write(bytes))])
    ensures After(acts + [Call(Write(bytes))]).pending == bytes
  {
    var act := Call(Write(bytes));
    InvAlways(acts);
    assert Init(acts + [act]) == acts && Last(acts + [act]) == act;
    assert Runs(acts + [act]) && After(acts + [act]) == Next(After(acts), act);
    assert [] + bytes == bytes;
    SendsMoreIfLive(acts + [act]);
  }

  // ---------- Whether a link is disposed of ----------

  /** Some continuation disposes of the link. */
  ghost predicate CanBeDisposed(acts: seq<Act>)
    requires Runs(acts)
  {
    exists more: seq<Act> :: Disposes(acts, more)
  }

  ghost predicate Disposes(acts: seq<Act>, more: seq<Act>)
    requires Runs(acts)
  {
    Runs(acts + more) && After(acts + more).disposals > After(acts).disposals
  }

  /** Its state is not OK and its watcher is stopped or waits for nothing. */
  predicate Abandoned(v: View) {
    v.state != OK && !(v.active && v.armed)
  }

  lemma StepAbandoned(v: View, act: Act)
    requires Inv(v) && Allowed(v, act) && Abandoned(v)
    ensures Abandoned(Next(v, act)) && Next(v, act).disposals == v.disposals
  {
  }

  lemma {:induction false} StaysAbandoned(acts: seq<Act>, more: seq<Act>)
    requires Runs(acts + more) && Runs(acts) && Abandoned(After(acts))
    ensures Abandoned(After(acts + more)) && After(acts + more).disposals == After(acts).disposals
  {
    if more == [] {
      assert acts + more == acts;
    } else {
      hide Next, Allowed, Abandoned, Runs, After;
      var k := |more| - 1;
      assert Init(acts + more) == acts + more[..k] && Last(acts + more) == more[k];
      RunsInit(acts + more);
      StaysAbandoned(acts, more[..k]);
      InvAlways(acts + more[..k]);
      StepAbandoned(After(acts + more[..k]), more[k]);
    }
  }

  /** One more action of a run. */
  lemma Extend(acts: seq<Act>, act: Act)
    requires Runs(acts) && Allowed(After(acts), act)
    ensures Runs(acts + [act]) && After(acts + [act]) == Next(After(acts), act)
  {
    assert Init(acts + [act]) == acts && Last(acts + [act]) == act;
  }

  /** An event that finds the connection closed, or the link no longer OK, disposes of it. */
  lemma EventDisposes(v: View)
    requires Inv(v) && v.active && v.armed
    ensures Allowed(v, Event(Got(0), [], Took(0), []))
    ensures Next(v, Event(Got(0), [], Took(0), [])).disposals == v.disposals + 1
  {
  }

  /**
    A link can still be disposed of exactly while it is OK, or has an event to come.  So
    one that is disconnected while it waits for nothing never is, nor one whose send failed.
   */
  lemma DisposedIfReached(acts: seq<Act>)
    requires Runs(acts)
    ensures CanBeDisposed(acts) <==> !Abandoned(After(acts))
    ensures After(acts).state == WRITE_ERROR ==> !CanBeDisposed(acts) && After(acts).disposals == 0
  {
    var v := After(acts);
    InvAlways(acts);
    if CanBeDisposed(acts) && Abandoned(v) {
      var more: seq<Act> :| Disposes(acts, more);
      StaysAbandoned(acts, more);
      assert false;
    }
    if v.active && v.armed {
      EventDisposes(v);
      Extend(acts, Event(Got(0), [], Took(0), []));
      assert Disposes(acts, [Event(Got(0), [], Took(0), [])]);
    } else if v.state == OK {
      OkCanBeDisposed(acts);
    }
  }

  /** Writing to an OK link and starting it brings an event. */
  lemma OkCanBeDisposed(acts: seq<Act>)
    requires Runs(acts) && After(acts).state == OK
    ensures CanBeDisposed(acts)
  {
    hide Next, Allowed, Runs, After, Inv;
    var w, b, e := Call(Write([0])), Call(Start), Event(Got(0), [], Took(0), []);
    NextCall(After(acts), Write([0]));
    Extend(acts, w);
    NextCall(After(acts + [w]), Start);
    Extend(acts + [w], b);
    WrittenAndStarted(After(acts));
    InvAlways(acts + [w] + [b]);
    EventDisposes(After(acts + [w] + [b]));
    Extend(acts + [w] + [b], e);
    assert acts + [w] + [b] + [e] == acts + [w, b, e];
    assert Disposes(acts, [w, b, e]);
  }

  lemma WrittenAndStarted(v: View)
    requires v.state == OK
    ensures var w := Applied(Applied(v, Write([0])), Start);
      w.active && w.armed && w.disposals == v.disposals
  {
  }

  /** A disconnect of a link with nothing pending has no effect beyond its state. */
  lemma IdleDisconnect(acts: seq<Act>)
    requires Runs(acts) && After(acts).state == OK && After(acts).pending == []
    ensures Runs(acts + [Call(Disconnect)])
    ensures After(acts + [Call(Disconnect)]).disposals == 0 && !CanBeDisposed(acts + [Call(Disconnect)])
  {
    InvAlways(acts);
    Extend(acts, Call(Disconnect));
    DisposedIfReached(acts + [Call(Disconnect)]);
  }
}
