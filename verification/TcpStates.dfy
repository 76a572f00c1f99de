/** How a TCP socket opens and ends, what it reports when something fails, and where packages wait. */
module TcpStates {
  import opened TcpWire
  import opened TcpSocket
  import opened TcpPackages
  import opened TcpRuns
  import opened TcpClosing

  // ---------------------------------------------------------------------------
  // Opening
  // ---------------------------------------------------------------------------

  /** This step opens the socket: it is started after it has been accepted or bound to listen, or it has connected,
      and the write event could be turned off if nothing is to be sent. */
  predicate Opens(s: State, m: Move) {
    || (m.Ctrl? && s.pipe != [] && s.pipe[0] == R && m.enable && (s.kind == PAccept || s.kind == PListen))
    || (m.ConnectDone? && m.ok && (m.disable || !NoMoreSending(s)))
  }

  /** A socket that waits to be opened stays as it is until it is opened or closed; then it is connected, or listens,
      and that is reported. */
  lemma OpensExactly(s: State, m: Move)
    requires Enabled(s, m) && (s.kind == PAccept || s.kind == PListen || s.kind == Connecting)
    requires !(m.Readable? || m.Writable?)
    ensures var s' := Next(s, m);
      if Opens(s, m) then
        s'.kind == (if s.kind == PListen then Listen else Connected) && s'.events == s.events + [SocketOpen]
      else s'.kind == s.kind || s'.kind == Invalid || s'.server.Freed? || s'.closing
  {
    hide Pkgs, Bytes;
    match m
    case Step(t, try, n) => StepKeepsKind(s, t, try, n); hide TaskStep;
    case Ctrl(note, enable) => CommandOpens(s, note, enable); hide Command;
    case _ => hide TaskStep, Command, SendBuffer;
  }

  lemma StepKeepsKind(s: State, t: nat, try: bool, n: nat)
    requires t < |s.tasks|
    ensures TaskStep(s, t, try, n).kind == s.kind
  {
    hide Bytes;
  }

  lemma CommandOpens(s: State, note: seq<Event>, enable: bool)
    requires s.pipe != [] && s.server == Idle && (s.kind == PAccept || s.kind == PListen || s.kind == Connecting)
    ensures var s' := Command(s, note, enable);
      if s.pipe[0] == R && enable && s.kind != Connecting then
        s'.kind == (if s.kind == PListen then Listen else Connected) && s'.events == s.events + [SocketOpen]
      else s'.kind == s.kind || s'.server.Freed? || s'.closing
  {
    hide Pkgs, NoMoreSending;
  }

  // ---------------------------------------------------------------------------
  // Failing
  // ---------------------------------------------------------------------------

  /** A call of `write` fails while the lists are sent. */
  predicate WriteFails(s: State, ws: seq<Write>) {
    var s1 := TakeDirect(s);
    var r := SendList(s1.high, ws);
    s.lock.None? && (r.failed || (r.list == [] && SendList(s1.low, r.rest).failed))
  }

  /** Something goes wrong. */
  predicate Fails(s: State, m: Move) {
    || m.Failure? || (m.Readable? && m.r == ReadErr) || (m.ConnectDone? && !m.ok)
    || (m.Writable? && WriteFails(s, m.ws))
  }

  /** Whatever goes wrong is reported as an error, at once or with the close that it causes; only when the peer is known
      to take no bytes any more, a failed write says nothing new, and a socket that is being closed is closed. */
  lemma FailuresReported(s: State, m: Move)
    requires Enabled(s, m) && Fails(s, m)
    ensures var s' := Next(s, m);
      || s'.events == s.events + [SocketErr] || s'.server == Freed([SocketErr])
      || (m.Writable? && (s.kind == HalfWrite || s'.kind == Invalid))
  {
    match m
    case Writable(ws, note) => WriteFailureReported(s, ws, note);
    case _ => hide SendBuffer, Pkgs;
  }

  lemma WriteFailureReported(s: State, ws: seq<Write>, note: seq<Event>)
    requires WriteFails(s, ws)
    ensures var s' := SendBuffer(s, ws, note);
      s'.events == s.events + [SocketErr] || s.kind == HalfWrite || s'.kind == Invalid
  {
    hide SendList, Pkgs;
  }

  // ---------------------------------------------------------------------------
  // Ending
  // ---------------------------------------------------------------------------

  /** When the peer has shut down its side: a socket that is being closed goes when nothing is left to send, one that
      can send nothing any more goes at once, and any other one goes on sending, with the end reported once. */
  lemma EndOfStream(s: State)
    ensures var s' := Forward(s, ReadEof);
      && (s'.server.Freed? && s.server == Idle ==> (s.closing && NoMoreSending(s)) || (!s.closing && s.kind == HalfWrite))
      && (s.closing && NoMoreSending(s) ==> s'.server == Freed([]))
      && (!s.closing && s.kind == HalfWrite ==> s'.server == Freed([SocketClose]))
      && (!s.closing && s.kind != HalfWrite ==>
            && s'.kind == HalfRead && s'.dropped == s.dropped
            && s'.events == s.events + if s.kind == HalfRead then [] else [SocketClose])
  {
    hide Pkgs, NoMoreSending;
  }

  /** A shutdown, and an error event with the end of the connection, close the socket at once; the close is reported
      unless the end was reported before. */
  lemma ClosesAtOnce(s: State)
    requires s.kind != Invalid
    ensures var report := if s.kind == HalfRead then [] else [SocketClose];
      CloseSocket(s, true) == FreeLists(s, report) && CloseFd(CloseSocket(s, true)).kind == Invalid
      && CloseFd(CloseSocket(s, true)).events == s.events + report
      && (Enabled(s, Eof) ==> Next(s, Eof) == FreeLists(s, report))
  {
    hide Pkgs;
  }

  /** A close that waits reports it, and reads no more. */
  lemma ClosesLater(s: State)
    requires s.kind != Invalid && !NoMoreSending(s) && s.server == Idle
    ensures var s' := CloseSocket(s, false);
      && s'.server == Idle && s'.closing && s'.kind == HalfRead && s'.high == s.high && s'.low == s.low
      && s'.events == s.events + if s.kind == HalfRead then [] else [SocketClose]
  {
    hide Pkgs, NoMoreSending;
  }

  // ---------------------------------------------------------------------------
  // Waiting
  // ---------------------------------------------------------------------------

  /** The packages that wait to be sent, in the order in which they will be if nothing comes in between. */
  function Waiting(s: State): seq<Pkg> {
    (if s.dw.Some? then [s.dw.value.pkg] else []) + Pkgs(s.high) + Pkgs(s.low)
  }

  lemma PkgsAppend(l: seq<Buf>, p: Pkg)
    ensures Pkgs(l + [Buf(p, 0)]) == Pkgs(l) + [p]
  {
  }

  /** A package of low priority waits behind all others; one of high priority only behind those of high priority. When
      nothing is in the lists a package of either priority counts as high, so no later one gets in front of it. */
  lemma QueueOrder(s: State, p: Pkg, low: bool)
    requires (s.kind == Connected || s.kind == Connecting || s.kind == HalfRead || s.kind == Bind) && !s.closing
    ensures var s' := SendSocket(s, p, low); var first := if s.dw.Some? then [s.dw.value.pkg] else [];
      && Waiting(s') == (if low then Waiting(s) + [p] else first + Pkgs(s.high) + [p] + Pkgs(s.low))
      && (s.high == [] && s.low == [] ==> Pkgs(s'.high) == [p] && s'.low == [])
      && (low && !(s.high == [] && s.low == []) ==> Pkgs(s'.high) == Pkgs(s.high))
  {
    PkgsAppend(s.high, p);
    PkgsAppend(s.low, p);
    assert Pkgs([]) == [];
    hide Pkgs;
  }

  /** The thread sends a package of low priority, or has a command for one. */
  predicate SendsLow(task: Task) { task.SendLow? || ((task.Inc? || task.Post?) && task.cmd.P?) }

  /** The thread sends a package of high priority. */
  predicate SendsHigh(task: Task) {
    task.Send? || task.Look? || task.Grab? || HasLock(task) || ((task.Inc? || task.Post?) && task.cmd.D?)
  }

  /** A package keeps its priority on its way to the pipe, and goes into it with that priority. */
  lemma KeepsPriority(s: State, t: nat, try: bool, n: nat)
    requires t < |s.tasks|
    ensures var task, s' := s.tasks[t], TaskStep(s, t, try, n); var task' := s'.tasks[t];
      && (SendsLow(task) ==> SendsLow(task') || task' == Done)
      && (SendsHigh(task) ==> SendsHigh(task') || task' == Done || task' == Inc(W))
      && (SendsLow(task) && s'.pipe != s.pipe ==> task.Post? && s'.pipe == s.pipe + [P(task.cmd.pkg)])
      && (SendsHigh(task) && s'.pipe != s.pipe ==> task.Post? && s'.pipe == s.pipe + [D(task.cmd.pkg)])
  {
    hide Bytes;
  }

  /** A new connection on a listening socket is reported, and so is an error there. */
  lemma AcceptsReported(s: State, e: Event)
    requires Enabled(s, Accepting([e]))
    ensures Next(s, Accepting([e])).events == s.events + [e]
  {
  }

  /** A sender goes on to write directly only at a moment when no package is on its way through the pipe, and only on a
      socket on which no direct write was ever cut short. */
  lemma WritesWhenIdle(run: seq<State>, moves: seq<Move>, k: nat)
    requires IsRun(run, moves) && k < |moves| && moves[k].Step? && moves[k].t < |run[k].tasks|
    requires run[k].tasks[moves[k].t].Counter?
    requires moves[k].t < |run[k + 1].tasks| && run[k + 1].tasks[moves[k].t].KindOf?
    ensures OnTheWay(run[k]) == 0 && Woken(run, moves, k) == 0
  {
    SendingExact(run, moves, k);
    assert run[k + 1] == Next(run[k], moves[k]);
    hide IsRun, OnTheWay, Woken;
  }
}
